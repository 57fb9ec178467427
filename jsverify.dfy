/**
 * The `jsverify` arbitraries that src/index.ts builds, as uninterpreted
 * terms: one constructor per combinator it calls. Sampling, shrinking and
 * the distributions of the combinators are not part of this model.
 */
module Jsverify {
  import opened Runtypes

  datatype Gen =
    | Json                                   // jsc.json
    | Bool                                   // jsc.bool
    | Num                                    // jsc.number
    | Str                                    // jsc.string
    | Fn                                     // jsc.fn()
    | Const(constant: Value)                 // jsc.constant(v)
    | ArrayOf(item: Gen)                     // jsc.array(g)
    | Dict(entry: Gen)                       // jsc.dict(g)
    | TupleOf(parts: seq<Gen>)               // jsc.tuple(gs)
    | RecordSpec(spec: map<string, Gen>)     // a plain object of arbitraries
    | Sum(summands: seq<Gen>)                // jsc.sum(gs)
    | OneOf(options: seq<Gen>)               // jsc.oneof(...gs)
    | SuchThat(base: Gen, accept: Callable)               // jsc.suchthat(g, p)
    | Smap(base: Gen, forward: Callable, backward: Callable) // g.smap(f, inv)
    | Elements(choices: seq<Value>)          // jsc.elements(vs)
}
