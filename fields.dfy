/**
 * The label/value resolver of `LabelValueReadView`: every `(label, evaluator)`
 * pair of the view's `fields` is turned into a displayed `(label, value)` pair.
 *
 * Python's duck typing becomes explicit data. The displayed object is a member
 * table (what `hasattr`/`getattr`/`callable` would find), and an evaluator is a
 * string, a callable taking the context, or any other value. Arbitrary Python
 * values are the type parameter `V`, the context dictionary is `C`; the
 * verbose-name lookup `get_verbose_name(object, name)` and `str()` are passed
 * in as functions.
 */
module Fields {

  import opened Wrappers

  /**
   * A member of the displayed object. `Method` is any callable member; its
   * `result` is what calling it with no arguments returns.
   */
  datatype Member<V> = Attr(value: V) | Method(result: V)

  /** The displayed object: member name to member. */
  type Record<V> = map<string, Member<V>>

  /** The second element of a `fields` pair. */
  datatype Evaluator<V, !C> =
    | Name(name: string)        // a string
    | Call(fn: C -> V)          // a callable that is not a string
    | Literal(value: V)         // anything else

  /** One element of `fields`; its `caption` is the pair's label, `None` stands for Python's `None`. */
  datatype FieldSpec<V, !C> = FieldSpec(caption: Option<string>, evaluator: Evaluator<V, C>)

  /** A resolved value: a Python value, or a string the resolver produced itself. */
  datatype Shown<V> = Value(v: V) | Text(s: string)

  /** One element of `read_fields`. */
  datatype ReadField<V> = ReadField(caption: Option<string>, value: Shown<V>)

  /** The five modes of the class docstring. */
  datatype Mode = InstanceAttribute | InstanceMethod | LiteralString | ContextCallable | StringForm

  /**
   * The documented mode of an evaluator: the first of the five that applies.
   * A string naming a member is mode 1 or 2 depending only on whether the
   * member is callable.
   */
  function ModeOf<V, C>(obj: Record<V>, ev: Evaluator<V, C>): (m: Mode)
    ensures m == InstanceAttribute <==> ev.Name? && ev.name in obj && obj[ev.name].Attr?
    ensures m == InstanceMethod <==> ev.Name? && ev.name in obj && obj[ev.name].Method?
    ensures m == LiteralString <==> ev.Name? && ev.name !in obj
    ensures m == ContextCallable <==> ev.Call?
    ensures m == StringForm <==> ev.Literal?
  {
    if ev.Name? && ev.name in obj && obj[ev.name].Attr? then InstanceAttribute
    else if ev.Name? && ev.name in obj then InstanceMethod
    else if ev.Name? then LiteralString
    else if ev.Call? then ContextCallable
    else StringForm
  }

  /**
   * `get_field_label_value`: resolve one `(caption, evaluator)` pair against the
   * object `obj` and the context `ctx`. The value follows the documented mode;
   * a missing label is looked up by name exactly in modes 1 and 2.
   */
  function ResolveField<V, C>(obj: Record<V>, caption: Option<string>, ev: Evaluator<V, C>, ctx: C,
                              verboseName: (Record<V>, string) -> string, show: V -> string): (r: ReadField<V>)
    ensures ModeOf(obj, ev) == InstanceAttribute ==> r.value == Value(obj[ev.name].value)
    ensures ModeOf(obj, ev) == InstanceMethod ==> r.value == Value(obj[ev.name].result)
    ensures ModeOf(obj, ev) == LiteralString ==> r.value == Text(ev.name)
    ensures ModeOf(obj, ev) == ContextCallable ==> r.value == Value(ev.fn(ctx))
    ensures ModeOf(obj, ev) == StringForm ==> r.value == Text(show(ev.value))
    ensures caption.Some? ==> r.caption == caption
    ensures caption.None? ==>
              r.caption == if ModeOf(obj, ev) in {InstanceAttribute, InstanceMethod}
                           then Some(verboseName(obj, ev.name)) else None
  {
    match ev
    case Name(n) =>
      if n in obj then
        var value := match obj[n] case Method(res) => res case Attr(v) => v;
        var caption' := if caption.None? then Some(verboseName(obj, n)) else caption;
        ReadField(caption', Value(value))
      else
        ReadField(caption, Text(n))
    case Call(fn) => ReadField(caption, Value(fn(ctx)))
    case Literal(v) => ReadField(caption, Text(show(v)))
  }

  /**
   * `read_fields` as `LabelValueReadView.get_context_data` builds it: one entry
   * per element of `fields`, in the same order, each resolved on its own.
   */
  function ReadFields<V, C>(obj: Record<V>, fields: seq<FieldSpec<V, C>>, ctx: C,
                            verboseName: (Record<V>, string) -> string, show: V -> string): (r: seq<ReadField<V>>)
    ensures |r| == |fields|
    ensures forall i {:trigger r[i]} :: 0 <= i < |fields| ==>
              r[i] == ResolveField(obj, fields[i].caption, fields[i].evaluator, ctx, verboseName, show)
  {
    if fields == [] then []
    else
      [ResolveField(obj, fields[0].caption, fields[0].evaluator, ctx, verboseName, show)]
      + ReadFields(obj, fields[1..], ctx, verboseName, show)
  }

  /** Resolving two concatenated field lists is concatenating their resolutions. */
  lemma {:induction false} ReadFieldsAppend<V, C>(obj: Record<V>, a: seq<FieldSpec<V, C>>, b: seq<FieldSpec<V, C>>,
                                ctx: C, verboseName: (Record<V>, string) -> string, show: V -> string)
    ensures ReadFields(obj, a + b, ctx, verboseName, show)
            == ReadFields(obj, a, ctx, verboseName, show) + ReadFields(obj, b, ctx, verboseName, show)
  {
    if a == [] {
      assert a + b == b;
    } else {
      assert (a + b)[0] == a[0];
      assert (a + b)[1..] == a[1..] + b;
      ReadFieldsAppend(obj, a[1..], b, ctx, verboseName, show);
    }
  }

  /**
   * Whether the object has a member of a given name, and which member it is, as
   * two objects may present it.
   */
  ghost predicate SameMember<V>(obj1: Record<V>, obj2: Record<V>, name: string)
  {
    (name in obj1 <==> name in obj2) && (name in obj1 ==> obj1[name] == obj2[name])
  }

  /**
   * Resolution reads the object only through the members that the string
   * evaluators name, the verbose-name lookup of the unlabelled ones, and the
   * callables, which see the context. Two objects that agree on those members
   * and on those verbose names, with contexts on which every callable gives the
   * same value, give the same `read_fields`. A callable may read the object
   * through `context_data['object']`, so the callables are compared on the
   * contexts themselves rather than assumed not to look.
   */
  lemma {:induction false} ReadFieldsFrame<V, C>(obj1: Record<V>, obj2: Record<V>, fields: seq<FieldSpec<V, C>>,
                                                  ctx1: C, ctx2: C, verboseName: (Record<V>, string) -> string, show: V -> string)
    requires forall i :: 0 <= i < |fields| && fields[i].evaluator.Name? ==>
               SameMember(obj1, obj2, fields[i].evaluator.name)
    requires forall i :: 0 <= i < |fields| && fields[i].evaluator.Call? ==>
               fields[i].evaluator.fn(ctx1) == fields[i].evaluator.fn(ctx2)
    requires forall i :: 0 <= i < |fields| && fields[i].caption.None? && fields[i].evaluator.Name? ==>
               verboseName(obj1, fields[i].evaluator.name) == verboseName(obj2, fields[i].evaluator.name)
    ensures ReadFields(obj1, fields, ctx1, verboseName, show) == ReadFields(obj2, fields, ctx2, verboseName, show)
  {
    if fields != [] {
      var f := fields[0];
      if f.evaluator.Name? {
        assert SameMember(obj1, obj2, f.evaluator.name);
      }
      assert ResolveField(obj1, f.caption, f.evaluator, ctx1, verboseName, show)
          == ResolveField(obj2, f.caption, f.evaluator, ctx2, verboseName, show);
      assert forall i :: 1 <= i < |fields| ==> fields[1..][i - 1] == fields[i];
      ReadFieldsFrame(obj1, obj2, fields[1..], ctx1, ctx2, verboseName, show);
    }
  }
}
