/**
 * The type descriptors of the `runtypes` library, as far as the generator
 * compiler of src/index.ts reads them: a tag and the tag's own fields.
 * Guards (`rt.guard`) are not part of this model.
 */
module Runtypes {
  import opened Wrappers

  /** The JavaScript values a descriptor or a generator term mentions. */
  datatype Value =
    | Undefined
    | Null
    | BoolValue(b: bool)
    | NumberValue(n: real)
    | StringValue(s: string)

  /**
   * A JavaScript function handed over inside a descriptor (a constraint
   * predicate, a correction, a right inverse). Only its identity matters
   * here; `Identity` is the `x => x` of src/index.ts.
   */
  datatype Callable = Identity | UserFn(name: string)

  /**
   * What a `Custom`/`withConstraint` predicate returns: `true`, or a
   * message string saying why the value is rejected (never `false`).
   */
  datatype Verdict = Pass | Fail(message: string)

  /** The keys of the strategy table of src/index.ts. */
  const TableKeys: set<string> :=
    {"always", "array", "boolean", "constraint", "dictionary", "function", "intersect",
     "literal", "number", "record", "string", "tuple", "union", "void"}

  /**
   * A tag the strategy table has no entry for: `partial`, any other
   * string, or "" for a descriptor whose tag is missing or empty.
   */
  type ForeignTag = t: string | t !in TableKeys witness ""

  /**
   * A descriptor: one constructor per entry of the strategy table, carrying
   * the fields that entry destructures, and `Other` for every descriptor whose
   * tag has no entry (its other fields are never read, so they are not kept).
   */
  datatype Descriptor =
    | Always
    | Array(element: Descriptor)
    | Boolean
    | Constraint(underlying: Descriptor, constraint: Callable,
                 correction: Option<Callable>, rightInverse: Option<Callable>)
    | Dictionary(valueType: Descriptor)
    | Function
    | Intersect(intersectees: seq<Descriptor>)
    | Literal(value: Value)
    | Number
    | Record(fields: map<string, Descriptor>)
    | String
    | Tuple(components: seq<Descriptor>)
    | Union(alternatives: seq<Descriptor>)
    | Void
    | Other(tag: ForeignTag)

  /** The descriptor's `tag` property. */
  function TagOf(d: Descriptor): (t: string)
    ensures t in TableKeys <==> !d.Other?
  {
    match d
    case Always => "always"
    case Array(_) => "array"
    case Boolean => "boolean"
    case Constraint(_, _, _, _) => "constraint"
    case Dictionary(_) => "dictionary"
    case Function => "function"
    case Intersect(_) => "intersect"
    case Literal(_) => "literal"
    case Number => "number"
    case Record(_) => "record"
    case String => "string"
    case Tuple(_) => "tuple"
    case Union(_) => "union"
    case Void => "void"
    case Other(t) => t
  }

  /**
   * The descriptors directly reachable from `d` through `element`,
   * `components`, `fields`, `alternatives`, `intersectees`, `underlying`
   * and the dictionary's `value`.
   */
  function Children(d: Descriptor): (cs: set<Descriptor>)
    ensures forall c :: c in cs ==> c < d
  {
    match d
    case Array(e) => {e}
    case Constraint(u, _, _, _) => {u}
    case Dictionary(v) => {v}
    case Intersect(ds) => set i | 0 <= i < |ds| :: ds[i]
    case Record(fs) => set k | k in fs :: fs[k]
    case Tuple(ds) => set i | 0 <= i < |ds| :: ds[i]
    case Union(ds) => set i | 0 <= i < |ds| :: ds[i]
    case _ => {}
  }

  /**
   * Every descriptor reachable from `d`, `d` included, is of a kind the
   * table has an entry for; by the contract of `TagOf`, this is the same as
   * every reachable tag being one of `TableKeys` (`SupportedByTag`).
   */
  predicate Supported(d: Descriptor)
    decreases d
  {
    !d.Other? && forall c :: c in Children(d) ==> Supported(c)
  }

  /** `Supported` in terms of tags. */
  lemma SupportedByTag(d: Descriptor)
    ensures Supported(d) <==> TagOf(d) in TableKeys && forall c :: c in Children(d) ==> Supported(c)
  {
  }
}
