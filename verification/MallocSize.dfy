/**
 Heap measurement (crates/mysten-util-mem/src/malloc_size.rs).  A type may declare a constant size;
 collections of such elements are measured as a product instead of a fold.  The shortcut never changes
 a measurement.
 */
module MallocSize {
  import opened ChainTypes

  /** The types with a measurement, by the implementation they use. */
  datatype Ty =
    | Leaf(constant: Option<nat>)      // a type with its own implementation, honest about its constant
    | Reference
    | BoxOf(inner: Ty)
    | TupleOf(parts: Tys)
    | OptionOf(inner: Ty)
    | ResultOf(ok: Ty, err: Ty)
    | Wrapper(inner: Ty)               // Cell, RefCell, Reverse
    | Guarded(inner: Ty)               // Mutex, RwLock
    | OnceCellOf(inner: Ty)
    | CowOf(owned: Ty)
    | Many(elem: Ty)                   // slices, Vec, VecDeque, HashSet, BTreeSet
    | MapOf(key: Ty, value: Ty)        // HashMap, BTreeMap

  datatype Tys = NoTys | Part(head: Ty, tail: Tys)

  /** Values; `shallow` is what the allocator reports for the value's own block (none for a slice). */
  datatype Val =
    | LeafVal(size: nat)
    | RefVal
    | BoxVal(shallow: nat, inner: Val)
    | TupleVal(parts: Vals)
    | Absent
    | Present(inner: Val)
    | OkVal(inner: Val)
    | ErrVal(inner: Val)
    | Inside(inner: Val)
    | Borrowed
    | ManyVal(shallow: nat, elems: Vals)
    | MapVal(shallow: nat, entries: Entries)

  datatype Vals = Nil | Cons(head: Val, tail: Vals)

  datatype Entries = NoEntry | Entry(key: Val, value: Val, rest: Entries)

  // ---------------------------------------------------------------- typing

  predicate HasType(t: Ty, v: Val)
    decreases t, 0
  {
    match t
    case Leaf(constant) => v.LeafVal? && (constant.Some? ==> v.size == constant.value)
    case Reference => v.RefVal?
    case BoxOf(inner) => v.BoxVal? && HasType(inner, v.inner)
    case TupleOf(parts) => v.TupleVal? && HasTypes(parts, v.parts)
    case OptionOf(inner) => v.Absent? || (v.Present? && HasType(inner, v.inner))
    case ResultOf(ok, err) => (v.OkVal? && HasType(ok, v.inner)) || (v.ErrVal? && HasType(err, v.inner))
    case Wrapper(inner) => v.Inside? && HasType(inner, v.inner)
    case Guarded(inner) => v.Inside? && HasType(inner, v.inner)
    case OnceCellOf(inner) => v.Absent? || (v.Present? && HasType(inner, v.inner))
    case CowOf(owned) => v.Borrowed? || (v.Inside? && HasType(owned, v.inner))
    case Many(elem) => v.ManyVal? && AllHaveType(elem, v.elems)
    case MapOf(key, value) => v.MapVal? && EntriesHaveType(key, value, v.entries)
  }

  predicate HasTypes(ts: Tys, vs: Vals)
    decreases ts, 0
  {
    match ts
    case NoTys => vs.Nil?
    case Part(t, rest) => vs.Cons? && HasType(t, vs.head) && HasTypes(rest, vs.tail)
  }

  predicate AllHaveType(t: Ty, vs: Vals)
    decreases t, 1, vs
  {
    vs.Nil? || (HasType(t, vs.head) && AllHaveType(t, vs.tail))
  }

  predicate EntriesHaveType(key: Ty, value: Ty, es: Entries)
    decreases MapOf(key, value), 0, es
  {
    es.NoEntry? || (HasType(key, es.key) && HasType(value, es.value) && EntriesHaveType(key, value, es.rest))
  }

  // ---------------------------------------------------------------- the measurement

  /** `constant_size`. */
  function ConstantSize(t: Ty): Option<nat>
    decreases t
  {
    match t
    case Leaf(constant) => constant
    case Reference => Some(0)
    case TupleOf(parts) => ConstantSum(Some(0), parts)
    case OptionOf(inner) => if ConstantSize(inner) == Some(0) then Some(0) else None
    case ResultOf(ok, err) =>
      var a, b := ConstantSize(ok), ConstantSize(err);
      if a.Some? && b == a then b else None
    case Wrapper(inner) => ConstantSize(inner)
    case _ => None
  }

  /** The running sum over a tuple's parts, None from the first part without a constant. */
  function ConstantSum(sum: Option<nat>, ts: Tys): Option<nat>
    decreases ts
  {
    match ts
    case NoTys => sum
    case Part(t, rest) =>
      var c := ConstantSize(t);
      ConstantSum(if sum.Some? && c.Some? then Some(sum.value + c.value) else None, rest)
  }

  /** `size_of`, with the shortcut for collections. */
  function SizeOf(t: Ty, v: Val): nat
    requires HasType(t, v)
    decreases t, 0
  {
    match t
    case Leaf(_) => v.size
    case Reference => 0
    case BoxOf(inner) => v.shallow + SizeOf(inner, v.inner)
    case TupleOf(parts) => SizeOfParts(0, parts, v.parts)
    case OptionOf(inner) => if v.Present? then SizeOf(inner, v.inner) else 0
    case ResultOf(ok, err) => if v.OkVal? then SizeOf(ok, v.inner) else SizeOf(err, v.inner)
    case Wrapper(inner) => SizeOf(inner, v.inner)
    case Guarded(inner) => SizeOf(inner, v.inner)
    case OnceCellOf(inner) => if v.Present? then SizeOf(inner, v.inner) else 0
    case CowOf(owned) => if v.Borrowed? then 0 else SizeOf(owned, v.inner)
    case Many(elem) =>
      var c := ConstantSize(elem);
      if c.Some? then v.shallow + Length(v.elems) * c.value else FoldSizes(elem, v.shallow, v.elems)
    case MapOf(key, value) =>
      var k, c := ConstantSize(key), ConstantSize(value);
      if k.Some? && c.Some? then v.shallow + Count(v.entries) * (k.value + c.value)
      else FoldEntries(key, value, v.shallow, v.entries)
  }

  function SizeOfParts(acc: nat, ts: Tys, vs: Vals): nat
    requires HasTypes(ts, vs)
    decreases ts
  {
    match ts
    case NoTys => acc
    case Part(t, rest) => SizeOfParts(acc + SizeOf(t, vs.head), rest, vs.tail)
  }

  function FoldSizes(t: Ty, acc: nat, vs: Vals): nat
    requires AllHaveType(t, vs)
    decreases t, 1, vs
  {
    if vs.Nil? then acc else FoldSizes(t, acc + SizeOf(t, vs.head), vs.tail)
  }

  function FoldEntries(key: Ty, value: Ty, acc: nat, es: Entries): nat
    requires EntriesHaveType(key, value, es)
    decreases MapOf(key, value), 0, es
  {
    if es.NoEntry? then acc
    else FoldEntries(key, value, acc + SizeOf(key, es.key) + SizeOf(value, es.value), es.rest)
  }

  function Length(vs: Vals): nat { if vs.Nil? then 0 else 1 + Length(vs.tail) }

  function Count(es: Entries): nat { if es.NoEntry? then 0 else 1 + Count(es.rest) }

  // ---------------------------------------------------------------- the plain measurement

  /** Every block a value owns, counted once, whatever the types declare. */
  function Owned(v: Val): nat {
    match v
    case LeafVal(size) => size
    case RefVal => 0
    case BoxVal(shallow, inner) => shallow + Owned(inner)
    case TupleVal(parts) => OwnedByAll(parts)
    case Absent => 0
    case Present(inner) => Owned(inner)
    case OkVal(inner) => Owned(inner)
    case ErrVal(inner) => Owned(inner)
    case Inside(inner) => Owned(inner)
    case Borrowed => 0
    case ManyVal(shallow, elems) => shallow + OwnedByAll(elems)
    case MapVal(shallow, entries) => shallow + OwnedByEntries(entries)
  }

  function OwnedByAll(vs: Vals): nat { if vs.Nil? then 0 else Owned(vs.head) + OwnedByAll(vs.tail) }

  function OwnedByEntries(es: Entries): nat {
    if es.NoEntry? then 0 else Owned(es.key) + Owned(es.value) + OwnedByEntries(es.rest)
  }

  // ---------------------------------------------------------------- a constant size is exact

  /** A type's constant size, when it has one, is what every value of the type owns. */
  lemma {:induction false} ConstantSizeIsExact(t: Ty, v: Val)
    requires HasType(t, v) && ConstantSize(t).Some?
    ensures Owned(v) == ConstantSize(t).value
    decreases t
  {
    match t
    case Leaf(_) =>
    case Reference =>
    case TupleOf(parts) => ConstantSumIsExact(0, parts, v.parts);
    case OptionOf(inner) => if v.Present? { ConstantSizeIsExact(inner, v.inner); }
    case ResultOf(ok, err) =>
      if v.OkVal? { ConstantSizeIsExact(ok, v.inner); } else { ConstantSizeIsExact(err, v.inner); }
    case Wrapper(inner) => ConstantSizeIsExact(inner, v.inner);
  }

  lemma {:induction false} NoSumFromNone(ts: Tys)
    ensures ConstantSum(None, ts) == None
  {
    if ts.NoTys? {
    } else {
      NoSumFromNone(ts.tail);
    }
  }

  lemma {:induction false} ConstantSumIsExact(sum: nat, ts: Tys, vs: Vals)
    requires HasTypes(ts, vs) && ConstantSum(Some(sum), ts).Some?
    ensures sum + OwnedByAll(vs) == ConstantSum(Some(sum), ts).value
    decreases ts
  {
    if ts.NoTys? {
    } else {
      NoSumFromNone(ts.tail);
      ConstantSizeIsExact(ts.head, vs.head);
      ConstantSumIsExact(sum + Owned(vs.head), ts.tail, vs.tail);
    }
  }

  lemma OneMore(n: nat, size: nat)
    ensures (1 + n) * size == size + n * size
  {
  }

  lemma {:induction false} ConstantElements(t: Ty, vs: Vals)
    requires AllHaveType(t, vs) && ConstantSize(t).Some?
    ensures OwnedByAll(vs) == Length(vs) * ConstantSize(t).value
    decreases vs
  {
    if vs.Nil? {
    } else {
      ConstantSizeIsExact(t, vs.head);
      ConstantElements(t, vs.tail);
      OneMore(Length(vs.tail), ConstantSize(t).value);
    }
  }

  lemma {:induction false} ConstantEntries(key: Ty, value: Ty, es: Entries)
    requires EntriesHaveType(key, value, es) && ConstantSize(key).Some? && ConstantSize(value).Some?
    ensures OwnedByEntries(es) == Count(es) * (ConstantSize(key).value + ConstantSize(value).value)
    decreases es
  {
    if es.NoEntry? {
    } else {
      ConstantSizeIsExact(key, es.key);
      ConstantSizeIsExact(value, es.value);
      ConstantEntries(key, value, es.rest);
      OneMore(Count(es.rest), ConstantSize(key).value + ConstantSize(value).value);
    }
  }

  // ---------------------------------------------------------------- the shortcut changes nothing

  /** `size_of` with its shortcuts measures exactly what the value owns. */
  lemma {:induction false} SizeOfIsOwned(t: Ty, v: Val)
    requires HasType(t, v)
    ensures SizeOf(t, v) == Owned(v)
    decreases t, 0
  {
    match t
    case Leaf(_) =>
    case Reference =>
    case BoxOf(inner) => SizeOfIsOwned(inner, v.inner);
    case TupleOf(parts) => PartsAreOwned(0, parts, v.parts);
    case OptionOf(inner) => if v.Present? { SizeOfIsOwned(inner, v.inner); }
    case ResultOf(ok, err) =>
      if v.OkVal? { SizeOfIsOwned(ok, v.inner); } else { SizeOfIsOwned(err, v.inner); }
    case Wrapper(inner) => SizeOfIsOwned(inner, v.inner);
    case Guarded(inner) => SizeOfIsOwned(inner, v.inner);
    case OnceCellOf(inner) => if v.Present? { SizeOfIsOwned(inner, v.inner); }
    case CowOf(owned) => if v.Inside? { SizeOfIsOwned(owned, v.inner); }
    case Many(elem) =>
      if ConstantSize(elem).Some? { ConstantElements(elem, v.elems); } else { FoldIsOwned(elem, v.shallow, v.elems); }
    case MapOf(key, value) =>
      if ConstantSize(key).Some? && ConstantSize(value).Some? {
        ConstantEntries(key, value, v.entries);
      } else {
        EntriesAreOwned(key, value, v.shallow, v.entries);
      }
  }

  lemma {:induction false} PartsAreOwned(acc: nat, ts: Tys, vs: Vals)
    requires HasTypes(ts, vs)
    ensures SizeOfParts(acc, ts, vs) == acc + OwnedByAll(vs)
    decreases ts
  {
    if ts.NoTys? {
    } else {
      SizeOfIsOwned(ts.head, vs.head);
      PartsAreOwned(acc + SizeOf(ts.head, vs.head), ts.tail, vs.tail);
    }
  }

  lemma {:induction false} FoldIsOwned(t: Ty, acc: nat, vs: Vals)
    requires AllHaveType(t, vs)
    ensures FoldSizes(t, acc, vs) == acc + OwnedByAll(vs)
    decreases t, 1, vs
  {
    if vs.Nil? {
    } else {
      SizeOfIsOwned(t, vs.head);
      FoldIsOwned(t, acc + SizeOf(t, vs.head), vs.tail);
    }
  }

  lemma FoldEntriesStep(key: Ty, value: Ty, acc: nat, es: Entries)
    requires EntriesHaveType(key, value, es) && es.Entry?
    requires SizeOf(key, es.key) == Owned(es.key) && SizeOf(value, es.value) == Owned(es.value)
    ensures FoldEntries(key, value, acc, es)
         == FoldEntries(key, value, acc + Owned(es.key) + Owned(es.value), es.rest)
  {
  }

  lemma {:induction false} EntriesAreOwned(key: Ty, value: Ty, acc: nat, es: Entries)
    requires EntriesHaveType(key, value, es)
    ensures FoldEntries(key, value, acc, es) == acc + OwnedByEntries(es)
    decreases MapOf(key, value), 0, es
  {
    if es.NoEntry? {
    } else {
      SizeOfIsOwned(key, es.key);
      SizeOfIsOwned(value, es.value);
      FoldEntriesStep(key, value, acc, es);
      EntriesAreOwned(key, value, acc + Owned(es.key) + Owned(es.value), es.rest);
    }
  }

  // ---------------------------------------------------------------- no constant is missed

  /** Types built from constant leaves by tuples, options, results and wrappers. */
  predicate Flat(t: Ty)
    decreases t
  {
    match t
    case Leaf(constant) => constant.Some?
    case Reference => true
    case TupleOf(parts) => FlatParts(parts)
    case OptionOf(inner) => Flat(inner)
    case ResultOf(ok, err) => Flat(ok) && Flat(err)
    case Wrapper(inner) => Flat(inner)
    case _ => false
  }

  predicate FlatParts(ts: Tys)
    decreases ts
  {
    ts.NoTys? || (Flat(ts.head) && FlatParts(ts.tail))
  }

  lemma {:induction false} Inhabited(t: Ty) returns (v: Val)
    requires Flat(t)
    ensures HasType(t, v)
    decreases t
  {
    match t
    case Leaf(constant) => v := LeafVal(constant.value);
    case Reference => v := RefVal;
    case TupleOf(parts) => var vs := PartsInhabited(parts); v := TupleVal(vs);
    case OptionOf(_) => v := Absent;
    case ResultOf(ok, _) => var x := Inhabited(ok); v := OkVal(x);
    case Wrapper(inner) => var x := Inhabited(inner); v := Inside(x);
  }

  lemma {:induction false} PartsInhabited(ts: Tys) returns (vs: Vals)
    requires FlatParts(ts)
    ensures HasTypes(ts, vs)
    decreases ts
  {
    if ts.NoTys? {
      vs := Nil;
    } else {
      var v := Inhabited(ts.head);
      var rest := PartsInhabited(ts.tail);
      vs := Cons(v, rest);
    }
  }

  /** A flat type that declares no constant size has two values that own different amounts. */
  lemma {:induction false} WithoutConstantVaries(t: Ty) returns (v: Val, v': Val)
    requires Flat(t) && ConstantSize(t).None?
    ensures HasType(t, v) && HasType(t, v') && Owned(v) != Owned(v')
    decreases t
  {
    match t
    case TupleOf(parts) =>
      var vs, vs' := PartsVary(0, parts);
      v, v' := TupleVal(vs), TupleVal(vs');
    case OptionOf(inner) =>
      if ConstantSize(inner).None? {
        var x, x' := WithoutConstantVaries(inner);
        v, v' := Present(x), Present(x');
      } else {
        var x := Inhabited(inner);
        ConstantSizeIsExact(inner, x);
        v, v' := Absent, Present(x);
      }
    case ResultOf(ok, err) =>
      if ConstantSize(ok).None? {
        var x, x' := WithoutConstantVaries(ok);
        v, v' := OkVal(x), OkVal(x');
      } else if ConstantSize(err).None? {
        var x, x' := WithoutConstantVaries(err);
        v, v' := ErrVal(x), ErrVal(x');
      } else {
        var x := Inhabited(ok);
        var y := Inhabited(err);
        ConstantSizeIsExact(ok, x);
        ConstantSizeIsExact(err, y);
        v, v' := OkVal(x), ErrVal(y);
      }
    case Wrapper(inner) =>
      var x, x' := WithoutConstantVaries(inner);
      v, v' := Inside(x), Inside(x');
  }

  lemma {:induction false} PartsVary(sum: nat, ts: Tys) returns (vs: Vals, vs': Vals)
    requires FlatParts(ts) && ConstantSum(Some(sum), ts).None?
    ensures HasTypes(ts, vs) && HasTypes(ts, vs') && OwnedByAll(vs) != OwnedByAll(vs')
    decreases ts
  {
    var c := ConstantSize(ts.head);
    if c.None? {
      var x, x' := WithoutConstantVaries(ts.head);
      var rest := PartsInhabited(ts.tail);
      vs, vs' := Cons(x, rest), Cons(x', rest);
    } else {
      var x := Inhabited(ts.head);
      var rest, rest' := PartsVary(sum + c.value, ts.tail);
      vs, vs' := Cons(x, rest), Cons(x, rest');
    }
  }
}
