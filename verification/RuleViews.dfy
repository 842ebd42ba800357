/** The rules of an ingress as values. */
module RuleViews {
  datatype Path = Path(path: string, service: string, portName: string)

  datatype RuleView = RuleView(host: string, paths: seq<Path>)
}
