/** The RDF values the TypeScript runners handle. */
module Rdf {
  import opened Dicts

  /** An `RDF.Bindings`: each variable's name with the value of its term, in the order the
      bindings iterate over them. */
  type Binding = Dict<string, string>
}
