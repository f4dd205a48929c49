/** Filling a chain's alert configuration from the defaults, field by field. */
module Defaults {

  /** The shape of a configuration type. An unexported field cannot be set. */
  datatype Type = TLeaf | TStruct(fields: seq<Field>) | TPtr(to: Type)
  datatype Field = Field(ty: Type, settable: bool)

  /** Values: any plain value (0 stands for the zero of its type), a struct, a nil or
      non-nil pointer. */
  datatype Value = Leaf(v: int) | Struct(fields: seq<Value>) | Nil | Ptr(to: Value)

  ghost predicate Is(v: Value, ty: Type)
    decreases ty
  {
    match ty
    case TLeaf => v.Leaf?
    case TStruct(fs) => v.Struct? && |v.fields| == |fs| && forall i | 0 <= i < |fs| :: Is(v.fields[i], fs[i].ty)
    case TPtr(to) => v.Nil? || (v.Ptr? && Is(v.to, to))
  }

  function Zero(ty: Type): Value
    decreases ty
  {
    match ty
    case TLeaf => Leaf(0)
    case TStruct(fs) => Struct(seq(|fs|, i requires 0 <= i < |fs| => Zero(fs[i].ty)))
    case TPtr(_) => Nil
  }

  /** The filled value of a field. */
  function Merge(ty: Type, d: Value, s: Value): (r: Value)
    requires Is(d, ty) && Is(s, ty)
    ensures Is(r, ty)
    decreases ty
  {
    match ty
    case TLeaf => if d == Leaf(0) then s else d
    case TStruct(fs) => Struct(seq(|fs|, i requires 0 <= i < |fs| =>
                                 if fs[i].settable then Merge(fs[i].ty, d.fields[i], s.fields[i]) else d.fields[i]))
    case TPtr(to) =>
      if d.Nil? then s
      else if to.TStruct? && s.Ptr? then Ptr(Merge(to, d.to, s.to))
      else d
  }

  /** The recursion over fields, one assignment at a time. */
  method ApplyAlertDefaults(ty: Type, dst: Value, src: Value) returns (r: Value)
    requires ty.TStruct? && Is(dst, ty) && Is(src, ty)
    ensures r == Merge(ty, dst, src)
    decreases ty
  {
    var fs, df := ty.fields, dst.fields;
    for i := 0 to |fs|
      invariant |df| == |fs|
      invariant forall k | 0 <= k < i ::
        df[k] == if fs[k].settable then Merge(fs[k].ty, dst.fields[k], src.fields[k]) else dst.fields[k]
      invariant forall k | i <= k < |fs| :: df[k] == dst.fields[k]
    {
      if !fs[i].settable {
        continue;
      }
      var sf := src.fields[i];
      match fs[i].ty
      case TStruct(_) =>
        var filled := ApplyAlertDefaults(fs[i].ty, df[i], sf);
        df := df[i := filled];
      case TPtr(to) =>
        if df[i].Nil? {
          df := df[i := sf];
        } else if to.TStruct? && !sf.Nil? {
          var filled := ApplyAlertDefaults(to, df[i].to, sf.to);
          df := df[i := Ptr(filled)];
        }
      case TLeaf =>
        if df[i] == Leaf(0) {
          df := df[i := sf];
        }
    }
    r := Struct(df);
    assert df == Merge(ty, dst, src).fields;
  }

  // ---------------------------------------------------------------------------
  // A left-biased merge
  // ---------------------------------------------------------------------------

  /** Everything set in d is the same in r: non-zero plain values, and non-nil pointers,
      which keep what they point to even if that is zero. */
  ghost predicate Keeps(ty: Type, d: Value, r: Value)
    requires Is(d, ty) && Is(r, ty)
    decreases ty
  {
    match ty
    case TLeaf => d != Leaf(0) ==> r == d
    case TStruct(fs) => forall i | 0 <= i < |fs| :: Keeps(fs[i].ty, d.fields[i], r.fields[i])
    case TPtr(to) => d.Ptr? ==> r.Ptr? && (if to.TStruct? then Keeps(to, d.to, r.to) else r == d)
  }

  /** Everything unset in d that may be set is in r as it is in s, and nothing else is new. */
  ghost predicate Fills(ty: Type, d: Value, s: Value, r: Value)
    requires Is(d, ty) && Is(s, ty) && Is(r, ty)
    decreases ty
  {
    match ty
    case TLeaf => d == Leaf(0) ==> r == s
    case TStruct(fs) => forall i | 0 <= i < |fs| ::
      if fs[i].settable then Fills(fs[i].ty, d.fields[i], s.fields[i], r.fields[i]) else r.fields[i] == d.fields[i]
    case TPtr(to) =>
      && (d.Nil? ==> r == s)
      && (d.Ptr? && to.TStruct? ==> r.Ptr? && if s.Ptr? then Fills(to, d.to, s.to, r.to) else r == d)
  }

  lemma {:induction false} KeepsSelf(ty: Type, d: Value)
    requires Is(d, ty)
    ensures Keeps(ty, d, d)
    decreases ty
  {
    match ty
    case TLeaf =>
    case TStruct(fs) =>
      forall i | 0 <= i < |fs| ensures Keeps(fs[i].ty, d.fields[i], d.fields[i]) {
        KeepsSelf(fs[i].ty, d.fields[i]);
      }
    case TPtr(to) =>
      if d.Ptr? {
        KeepsSelf(to, d.to);
      }
  }

  /** Explicit settings win and everything else comes from the defaults ... */
  lemma {:induction false} MergeKeepsAndFills(ty: Type, d: Value, s: Value)
    requires Is(d, ty) && Is(s, ty)
    ensures Keeps(ty, d, Merge(ty, d, s)) && Fills(ty, d, s, Merge(ty, d, s))
    decreases ty
  {
    var r := Merge(ty, d, s);
    match ty
    case TLeaf =>
    case TStruct(fs) =>
      forall i | 0 <= i < |fs|
        ensures Keeps(fs[i].ty, d.fields[i], r.fields[i])
        ensures if fs[i].settable then Fills(fs[i].ty, d.fields[i], s.fields[i], r.fields[i])
              else r.fields[i] == d.fields[i]
      {
        if fs[i].settable {
          MergeKeepsAndFills(fs[i].ty, d.fields[i], s.fields[i]);
        } else {
          KeepsSelf(fs[i].ty, d.fields[i]);
        }
      }
    case TPtr(to) =>
      if d.Ptr? && to.TStruct? && s.Ptr? {
        MergeKeepsAndFills(to, d.to, s.to);
      } else if d.Ptr? {
        KeepsSelf(to, d.to);
      }
  }

  /** ... and that determines the result. */
  lemma {:induction false} KeepsAndFillsIsMerge(ty: Type, d: Value, s: Value, r: Value)
    requires Is(d, ty) && Is(s, ty) && Is(r, ty) && Keeps(ty, d, r) && Fills(ty, d, s, r)
    ensures r == Merge(ty, d, s)
    decreases ty
  {
    match ty
    case TLeaf =>
    case TStruct(fs) =>
      var m := Merge(ty, d, s);
      forall i | 0 <= i < |fs| ensures r.fields[i] == m.fields[i] {
        if fs[i].settable {
          KeepsAndFillsIsMerge(fs[i].ty, d.fields[i], s.fields[i], r.fields[i]);
        }
      }
      assert r.fields == m.fields;
    case TPtr(to) =>
      if d.Ptr? && to.TStruct? && s.Ptr? {
        KeepsAndFillsIsMerge(to, d.to, s.to, r.to);
      }
  }

  lemma {:induction false} MergeIsIdempotent(ty: Type, d: Value, s: Value)
    requires Is(d, ty) && Is(s, ty)
    ensures Merge(ty, Merge(ty, d, s), s) == Merge(ty, d, s) && Merge(ty, d, d) == d
    decreases ty
  {
    var r := Merge(ty, d, s);
    match ty
    case TLeaf =>
    case TStruct(fs) =>
      forall i | 0 <= i < |fs|
          ensures Merge(ty, r, s).fields[i] == r.fields[i] && Merge(ty, d, d).fields[i] == d.fields[i] {
        MergeIsIdempotent(fs[i].ty, d.fields[i], s.fields[i]);
      }
      assert Merge(ty, r, s).fields == r.fields && Merge(ty, d, d).fields == d.fields;
    case TPtr(to) =>
      if d.Ptr? {
        MergeIsIdempotent(to, d.to, if s.Ptr? then s.to else d.to);
      } else if s.Ptr? {
        MergeIsIdempotent(to, s.to, s.to);
      }
  }

  lemma {:induction false} MergeIsAssociative(ty: Type, a: Value, b: Value, c: Value)
    requires Is(a, ty) && Is(b, ty) && Is(c, ty)
    ensures Merge(ty, Merge(ty, a, b), c) == Merge(ty, a, Merge(ty, b, c))
    decreases ty
  {
    match ty
    case TLeaf =>
    case TStruct(fs) =>
      var left, right := Merge(ty, Merge(ty, a, b), c), Merge(ty, a, Merge(ty, b, c));
      forall i | 0 <= i < |fs| ensures left.fields[i] == right.fields[i] {
        MergeIsAssociative(fs[i].ty, a.fields[i], b.fields[i], c.fields[i]);
      }
      assert left.fields == right.fields;
    case TPtr(to) =>
      if a.Ptr? && b.Ptr? && c.Ptr? {
        MergeIsAssociative(to, a.to, b.to, c.to);
      }
  }

  /** v without the unexported fields embedded in it, which a merge cannot write. */
  function Exported(ty: Type, v: Value): Value
    requires Is(v, ty)
    decreases ty
  {
    match ty
    case TStruct(fs) => Struct(seq(|fs|, i requires 0 <= i < |fs| =>
                                 if fs[i].settable then Exported(fs[i].ty, v.fields[i]) else Zero(fs[i].ty)))
    case _ => v
  }

  lemma {:induction false} ZeroHasType(ty: Type)
    ensures Is(Zero(ty), ty)
    decreases ty
  {
    match ty
    case TStruct(fs) =>
      forall i | 0 <= i < |fs| ensures Is(Zero(fs[i].ty), fs[i].ty) {
        ZeroHasType(fs[i].ty);
      }
    case _ =>
  }

  /** The all-zero configuration is a right identity, and a left identity on everything a
      merge can write. */
  lemma {:induction false} ZeroIsIdentity(ty: Type, v: Value)
    requires Is(v, ty)
    ensures Is(Zero(ty), ty) && Merge(ty, v, Zero(ty)) == v && Merge(ty, Zero(ty), v) == Exported(ty, v)
    decreases ty
  {
    ZeroHasType(ty);
    match ty
    case TLeaf =>
    case TStruct(fs) =>
      var right, left := Merge(ty, v, Zero(ty)), Merge(ty, Zero(ty), v);
      forall i | 0 <= i < |fs| ensures right.fields[i] == v.fields[i] && left.fields[i] == Exported(ty, v).fields[i] {
        ZeroIsIdentity(fs[i].ty, v.fields[i]);
      }
      assert right.fields == v.fields && left.fields == Exported(ty, v).fields;
    case TPtr(to) =>
  }

  /** Alert configurations have exported fields only, so there it is a full left identity. */
  ghost predicate AllExported(ty: Type)
    decreases ty
  {
    match ty
    case TStruct(fs) => forall i | 0 <= i < |fs| :: fs[i].settable && AllExported(fs[i].ty)
    case _ => true
  }

  lemma {:induction false} ExportedIsAll(ty: Type, v: Value)
    requires Is(v, ty) && AllExported(ty)
    ensures Exported(ty, v) == v
    decreases ty
  {
    match ty
    case TStruct(fs) =>
      forall i | 0 <= i < |fs| ensures Exported(ty, v).fields[i] == v.fields[i] {
        ExportedIsAll(fs[i].ty, v.fields[i]);
      }
      assert Exported(ty, v).fields == v.fields;
    case _ =>
  }
}
