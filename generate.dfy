/**
 * src/index.ts: `makeJsverifyArbitrary` and its `types` strategy table,
 * a structurally recursive translation from a descriptor to a generator
 * term that fails with one fixed error on a tag the table does not hold.
 */
module Generate {
  import opened Wrappers
  import opened Runtypes
  import opened Jsverify

  /** The exception `makeJsverifyArbitrary` throws. */
  datatype Error = Error(message: string)

  const CannotGenerate: Error := Error("Can not generate this type")

  /**
   * `ds.map(makeJsverifyArbitrary)` for the children `ds` of `parent`: all
   * the generators in order, or the exception of the first child that threw.
   */
  function CompileEach(ds: seq<Descriptor>, ghost parent: Descriptor): (r: Result<seq<Gen>, Error>)
    requires forall i :: 0 <= i < |ds| ==> ds[i] < parent
    ensures r.Ok? <==> forall i :: 0 <= i < |ds| ==> Supported(ds[i])
    ensures r.Ok? ==> |r.value| == |ds| && forall i :: 0 <= i < |ds| ==> Compile(ds[i]) == Ok(r.value[i])
    ensures r.Err? ==> r.error == CannotGenerate
    decreases parent, 0, |ds|
  {
    if ds == [] then Ok([])
    else match Compile(ds[0])
      case Err(e) => Err(e)
      case Ok(g) =>
        (match CompileEach(ds[1..], parent)
         case Err(e) => Err(e)
         case Ok(gs) => Ok([g] + gs))
  }

  /**
   * The `spec` object of the `record` entry for the fields `fs` of `parent`:
   * every field name mapped to its compiled generator, or the exception of a
   * field that threw.
   */
  function CompileFields(fs: map<string, Descriptor>, ghost parent: Descriptor)
    : (r: Result<map<string, Gen>, Error>)
    requires forall k :: k in fs ==> fs[k] < parent
    ensures r.Ok? <==> forall k :: k in fs ==> Supported(fs[k])
    ensures r.Ok? ==> r.value.Keys == fs.Keys && forall k :: k in fs ==> Compile(fs[k]) == Ok(r.value[k])
    ensures r.Err? ==> r.error == CannotGenerate
    decreases parent, 0
  {
    if forall k :: k in fs ==> Compile(fs[k]).Ok? then
      Ok(map k | k in fs :: Compile(fs[k]).value)
    else Err(CannotGenerate)
  }

  /** `makeJsverifyArbitrary` (src/index.ts:31-36) with the table entries inlined. */
  function Compile(d: Descriptor): (r: Result<Gen, Error>)
    ensures r.Ok? <==> Supported(d)
    ensures r.Err? ==> r.error == CannotGenerate
    decreases d, 1
  {
    match d
    case Always => Ok(Json)
    case Array(e) =>
      (match Compile(e)
       case Ok(g) => Ok(ArrayOf(g))
       case Err(x) => Err(x))
    case Boolean => Ok(Bool)
    case Constraint(u, c, corr, inv) =>
      (match Compile(u)
       case Ok(g) =>
         if corr.Some? then Ok(Smap(g, corr.value, inv.GetOr(Identity)))
         else Ok(SuchThat(g, c))
       case Err(x) => Err(x))
    case Dictionary(v) =>
      (match Compile(v)
       case Ok(g) => Ok(Dict(g))
       case Err(x) => Err(x))
    case Function => Ok(Fn)
    case Intersect(ds) =>
      (match CompileEach(ds, d)
       case Ok(gs) => Ok(OneOf(gs))
       case Err(x) => Err(x))
    case Literal(v) => Ok(Const(v))
    case Number => Ok(Num)
    case Record(fs) =>
      (match CompileFields(fs, d)
       case Ok(spec) => Ok(RecordSpec(spec))
       case Err(x) => Err(x))
    case String => Ok(Str)
    case Tuple(ds) =>
      (match CompileEach(ds, d)
       case Ok(gs) => Ok(TupleOf(gs))
       case Err(x) => Err(x))
    case Union(ds) =>
      (match CompileEach(ds, d)
       case Ok(gs) => Ok(Sum(gs))
       case Err(x) => Err(x))
    case Void => Ok(Elements([Null, Undefined]))
    case Other(_) => Err(CannotGenerate)
  }

  /**
   * The `record` entry (src/index.ts:17-23) as written: a loop over the
   * field names that adds one compiled field to `spec` at a time, and lets
   * the first exception escape.
   */
  method CompileRecord(fields: map<string, Descriptor>) returns (r: Result<Gen, Error>)
    ensures r == Compile(Record(fields))
  {
    var spec: map<string, Gen> := map[];
    var todo := fields.Keys;
    while todo != {}
      invariant todo <= fields.Keys
      invariant spec.Keys == fields.Keys - todo
      invariant forall k :: k in spec ==> Compile(fields[k]) == Ok(spec[k])
      decreases todo
    {
      var k :| k in todo;
      var g := Compile(fields[k]);
      if g.Err? {
        assert Compile(Record(fields)) == Err(CannotGenerate) == g;
        return g;
      }
      spec := spec[k := g.value];
      todo := todo - {k};
    }
    RecordShape(fields);
    assert spec == Compile(Record(fields)).value.spec;
    r := Ok(RecordSpec(spec));
  }

  /** A tag outside the table is rejected, whatever else the descriptor holds. */
  lemma ForeignTagRejected(d: Descriptor)
    requires TagOf(d) !in TableKeys
    ensures Compile(d) == Err(CannotGenerate)
  {
  }

  /** There is no `partial` entry. */
  lemma PartialRejected()
    ensures Compile(Other("partial")) == Err(CannotGenerate)
  {
  }

  /** A rejected child makes the whole descriptor rejected: failure propagates upward. */
  lemma {:induction false} ChildRejected(d: Descriptor, c: Descriptor)
    requires c in Children(d) && Compile(c).Err?
    ensures Compile(d) == Err(CannotGenerate)
  {
  }

  /**
   * `constraint` (src/index.ts:9-11): with a correction, the underlying
   * generator mapped through it and the right inverse (identity when absent);
   * without one, the underlying generator filtered by the constraint.
   */
  lemma ConstraintBranches(u: Descriptor, c: Callable, corr: Option<Callable>, inv: Option<Callable>)
    ensures Compile(u).Err? ==> Compile(Constraint(u, c, corr, inv)) == Err(CannotGenerate)
    ensures Compile(u).Ok? && corr.Some? ==>
      Compile(Constraint(u, c, corr, inv)) == Ok(Smap(Compile(u).value, corr.value, inv.GetOr(Identity)))
    ensures Compile(u).Ok? && corr.Some? && inv.None? ==>
      Compile(Constraint(u, c, corr, inv)).value.backward == Identity
    ensures Compile(u).Ok? && corr.None? ==>
      Compile(Constraint(u, c, corr, inv)) == Ok(SuchThat(Compile(u).value, c))
  {
  }

  /** `tuple` (src/index.ts:25): same arity and order as `components`. */
  lemma TupleShape(cs: seq<Descriptor>)
    ensures Compile(Descriptor.Tuple(cs)).Ok? <==> forall i :: 0 <= i < |cs| ==> Compile(cs[i]).Ok?
    ensures Compile(Descriptor.Tuple(cs)).Ok? ==>
      Compile(Descriptor.Tuple(cs)).value.TupleOf? &&
      |Compile(Descriptor.Tuple(cs)).value.parts| == |cs| &&
      forall i :: 0 <= i < |cs| ==> Compile(cs[i]) == Ok(Compile(Descriptor.Tuple(cs)).value.parts[i])
  {
  }

  /** `union` (src/index.ts:26): a `Sum` over the alternatives, same length and order. */
  lemma UnionShape(ds: seq<Descriptor>)
    ensures Compile(Union(ds)).Ok? <==> forall i :: 0 <= i < |ds| ==> Compile(ds[i]).Ok?
    ensures Compile(Union(ds)).Ok? ==>
      Compile(Union(ds)).value.Sum? &&
      |Compile(Union(ds)).value.summands| == |ds| &&
      forall i :: 0 <= i < |ds| ==> Compile(ds[i]) == Ok(Compile(Union(ds)).value.summands[i])
  {
  }

  /**
   * `intersect` (src/index.ts:14): a `OneOf` over the intersectees, same
   * length and order. Each draw comes from one intersectee alone, so nothing
   * makes it satisfy the others.
   */
  lemma IntersectShape(ds: seq<Descriptor>)
    ensures Compile(Intersect(ds)).Ok? <==> forall i :: 0 <= i < |ds| ==> Compile(ds[i]).Ok?
    ensures Compile(Intersect(ds)).Ok? ==>
      Compile(Intersect(ds)).value.OneOf? &&
      |Compile(Intersect(ds)).value.options| == |ds| &&
      forall i :: 0 <= i < |ds| ==> Compile(ds[i]) == Ok(Compile(Intersect(ds)).value.options[i])
  {
  }

  /** `record` (src/index.ts:17-23): exactly the declared keys, each compiled. */
  lemma RecordShape(fs: map<string, Descriptor>)
    ensures Compile(Record(fs)).Ok? <==> forall k :: k in fs ==> Compile(fs[k]).Ok?
    ensures Compile(Record(fs)).Ok? ==>
      Compile(Record(fs)).value.RecordSpec? &&
      Compile(Record(fs)).value.spec.Keys == fs.Keys &&
      forall k :: k in fs ==> Compile(fs[k]) == Ok(Compile(Record(fs)).value.spec[k])
  {
  }

  /** `void` and `literal` (src/index.ts:15, 27) produce fixed values and do not recurse. */
  lemma ConstantShapes(v: Value)
    ensures Compile(Void) == Ok(Elements([Null, Undefined]))
    ensures Compile(Literal(v)) == Ok(Const(v))
  {
  }

  /** The primitive entries (src/index.ts:6, 8, 13, 16, 24) are the primitive arbitraries. */
  lemma PrimitiveShapes()
    ensures Compile(Always) == Ok(Json) && Compile(Boolean) == Ok(Bool)
    ensures Compile(Number) == Ok(Num) && Compile(String) == Ok(Str)
    ensures Compile(Function) == Ok(Fn)
  {
  }

  /** `array` and `dictionary` (src/index.ts:7, 12) wrap the compiled element type. */
  lemma WrapperShapes(e: Descriptor)
    ensures Compile(e).Ok? ==> Compile(Array(e)) == Ok(ArrayOf(Compile(e).value))
    ensures Compile(e).Ok? ==> Compile(Dictionary(e)) == Ok(Dict(Compile(e).value))
    ensures Compile(e).Err? ==> Compile(Array(e)).Err? && Compile(Dictionary(e)).Err?
  {
  }
}
