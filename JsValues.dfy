/** The JSON-compatible JavaScript values the app stores and exchanges, with
    objects as ORDERED property lists: JavaScript keeps an object's string
    keys in insertion order, assigning to an existing key keeps its place,
    and a new key goes to the end. */
module JsValues {
  import opened Results
  import opened Seqs

  datatype Value =
    | Undefined
    | Null
    | Bool(b: bool)
    | Num(x: real)
    | Str(s: string)
    | Arr(items: seq<Value>)
    | Obj(props: seq<Prop>)

  /** One own property of an object. */
  datatype Prop = Prop(key: string, val: Value)

  predicate UniqueKeys(o: seq<Prop>) {
    forall i, j :: 0 <= i < j < |o| ==> o[i].key != o[j].key
  }

  /** A JavaScript object: no key occurs twice. */
  type Object = o: seq<Prop> | UniqueKeys(o)

  /** JavaScript truthiness: undefined, null, false, 0 and "" are falsy;
      every array and object is truthy. */
  predicate Truthy(v: Value) {
    match v
    case Undefined => false
    case Null => false
    case Bool(b) => b
    case Num(x) => x != 0.0
    case Str(s) => s != ""
    case Arr(_) => true
    case Obj(_) => true
  }

  /** `a === b` between a value read back from storage and any other value:
      primitives compare by value, while an array or object read back from
      storage is a fresh object, identical to nothing else. */
  predicate StrictEquals(a: Value, b: Value) {
    !a.Arr? && !a.Obj? && a == b
  }

  predicate HasKey(o: seq<Prop>, k: string) {
    exists i :: 0 <= i < |o| && o[i].key == k
  }

  /** The position of key k. */
  function IndexOf(o: seq<Prop>, k: string): (r: Option<nat>)
    ensures r.Some? <==> HasKey(o, k)
    ensures r.Some? ==> r.value < |o| && o[r.value].key == k
  {
    FindFirst(o, (q: Prop) => q.key == k)
  }

  /** `o[k]`: None stands for undefined. */
  function Get(o: seq<Prop>, k: string): Option<Value> {
    match IndexOf(o, k)
    case None => None
    case Some(i) => Some(o[i].val)
  }

  /** `o[k]` as a value: undefined when the key is absent. */
  function Read(o: seq<Prop>, k: string): (r: Value)
    ensures !HasKey(o, k) ==> r == Undefined
    ensures HasKey(o, k) ==> Get(o, k) == Some(r)
  {
    Get(o, k).GetOr(Undefined)
  }

  /** In an object the property at position i is what its key reads. */
  lemma GetAt(o: Object, i: nat)
    requires i < |o|
    ensures Get(o, o[i].key) == Some(o[i].val)
  {
  }

  /** `o[k] = v` on a fresh copy: the new value is read under k, every other
      key reads as before, existing keys keep their positions and a new key
      is appended. */
  function Set(o: Object, k: string, v: Value): (r: Object)
    ensures Get(r, k) == Some(v)
    ensures forall k' :: k' != k ==> Get(r, k') == Get(o, k')
    ensures |r| == if HasKey(o, k) then |o| else |o| + 1
    ensures forall j :: 0 <= j < |o| ==> r[j].key == o[j].key
    ensures !HasKey(o, k) ==> r[|o|] == Prop(k, v)
  {
    match IndexOf(o, k)
    case Some(i) =>
      var r := o[i := Prop(k, v)];
      assert UniqueKeys(r);
      SetGetOthers(o, r, k);
      GetAt(r, i);
      r
    case None =>
      var r := o + [Prop(k, v)];
      assert UniqueKeys(r);
      SetGetOthers(o, r, k);
      GetAt(r, |o|);
      r
  }

  /** Helper for Set: two objects that agree on every position except the
      one holding k, and on the keys at the positions they share, read the
      same under every key but k. */
  lemma SetGetOthers(o: Object, r: Object, k: string)
    requires |o| <= |r| <= |o| + 1
    requires forall j :: 0 <= j < |o| && o[j].key != k ==> r[j] == o[j]
    requires forall j :: 0 <= j < |o| ==> r[j].key == o[j].key
    requires |r| == |o| + 1 ==> r[|o|].key == k
    ensures forall k' :: k' != k ==> Get(r, k') == Get(o, k')
  {
    forall k' | k' != k
      ensures Get(r, k') == Get(o, k')
    {
      if HasKey(o, k') {
        var i := IndexOf(o, k').value;
        GetAt(o, i);
        GetAt(r, i);
      } else {
        assert !HasKey(r, k');
      }
    }
  }

  /** Object.assign(o, src), and so the spread `{...o, ...src}`: the
      properties of src are assigned to o one by one, in src's order. */
  function Assign(o: Object, src: Object): (r: Object)
    ensures |o| <= |r|
    ensures forall j :: 0 <= j < |o| ==> r[j].key == o[j].key
    ensures forall j :: 0 <= j < |o| && !HasKey(src, o[j].key) ==> r[j] == o[j]
    ensures r[|o|..] == Filter(src, (q: Prop) => !HasKey(o, q.key))
    decreases |src|
  {
    if src == [] then o
    else
      var r := Assign(Set(o, src[0].key, src[0].val), src[1..]);
      AssignStep(o, src, r);
      r
  }

  /** Helper for Assign: what holds of assigning src[1..] after src[0]
      holds of assigning all of src. */
  lemma AssignStep(o: Object, src: Object, r: Object)
    requires src != []
    requires var o' := Set(o, src[0].key, src[0].val);
             && |o'| <= |r|
             && (forall j :: 0 <= j < |o'| ==> r[j].key == o'[j].key)
             && (forall j :: 0 <= j < |o'| && !HasKey(src[1..], o'[j].key) ==> r[j] == o'[j])
             && r[|o'|..] == Filter(src[1..], (q: Prop) => !HasKey(o', q.key))
    ensures |o| <= |r|
    ensures forall j :: 0 <= j < |o| ==> r[j].key == o[j].key
    ensures forall j :: 0 <= j < |o| && !HasKey(src, o[j].key) ==> r[j] == o[j]
    ensures r[|o|..] == Filter(src, (q: Prop) => !HasKey(o, q.key))
  {
    var o' := Set(o, src[0].key, src[0].val);
    RestKeys(src);
    forall j | 0 <= j < |o| && !HasKey(src, o[j].key)
      ensures r[j] == o[j]
    {
      GetAt(o, j);
      GetAt(o', j);
    }
    AssignStepTail(o, src, o', r);
  }

  /** The keys of src[1..] are keys of src other than src[0]'s. */
  lemma RestKeys(src: Object)
    requires src != []
    ensures forall k :: HasKey(src[1..], k) ==> HasKey(src, k) && k != src[0].key
  {
    forall k | HasKey(src[1..], k)
      ensures HasKey(src, k) && k != src[0].key
    {
      var i :| 0 <= i < |src[1..]| && src[1..][i].key == k;
      assert src[i + 1].key == k;
    }
  }

  /** Helper for AssignStep: the appended keys. */
  lemma AssignStepTail(o: Object, src: Object, o': Object, r: Object)
    requires src != [] && o' == Set(o, src[0].key, src[0].val)
    requires |o'| <= |r|
    requires forall j :: 0 <= j < |o'| && !HasKey(src[1..], o'[j].key) ==> r[j] == o'[j]
    requires r[|o'|..] == Filter(src[1..], (q: Prop) => !HasKey(o', q.key))
    ensures r[|o|..] == Filter(src, (q: Prop) => !HasKey(o, q.key))
  {
    SetKeys(o, src[0].key, src[0].val);
    RestKeys(src);
    forall q | q in src[1..]
      ensures q.key != src[0].key
    {
      assert HasKey(src[1..], q.key);
    }
    var keep := (q: Prop) => !HasKey(o, q.key);
    var keep' := (q: Prop) => !HasKey(o', q.key);
    FilterCongruent(src[1..], keep, keep');
    assert src == [src[0]] + src[1..];
    if !HasKey(o, src[0].key) {
      assert r[|o|] == o'[|o|] == src[0];
      assert r[|o|..] == [r[|o|]] + r[|o'|..];
    }
  }

  /** The keys of `Set(o, k, v)` are o's keys and k. */
  lemma SetKeys(o: Object, k: string, v: Value)
    ensures forall k' :: HasKey(Set(o, k, v), k') <==> HasKey(o, k') || k' == k
  {
    var r := Set(o, k, v);
    forall k'
      ensures HasKey(r, k') <==> HasKey(o, k') || k' == k
    {
      if HasKey(o, k') {
        var j :| 0 <= j < |o| && o[j].key == k';
        assert r[j].key == k';
      }
      if k' == k {
        assert Get(r, k).Some?;
      }
      if HasKey(r, k') {
        var j :| 0 <= j < |r| && r[j].key == k';
        if j < |o| {
          assert o[j].key == k';
        }
      }
    }
  }

  /** What a merged object reads: src's value wherever src has the key,
      o's value elsewhere. */
  lemma {:induction false} GetAssign(o: Object, src: Object, k: string)
    ensures Get(Assign(o, src), k) == if HasKey(src, k) then Get(src, k) else Get(o, k)
    decreases |src|
  {
    if src != [] {
      var o' := Set(o, src[0].key, src[0].val);
      GetAssign(o', src[1..], k);
      if k == src[0].key {
        GetAt(src, 0);
        assert !HasKey(src[1..], k);
      } else {
        assert HasKey(src, k) == HasKey(src[1..], k);
        if HasKey(src, k) {
          var i := IndexOf(src, k).value;
          GetAt(src, i);
          GetAt(src[1..], i - 1);
        }
      }
    }
  }

  /** Copying an object into a fresh one, `{...o}`, reproduces it exactly,
      key order included. */
  lemma CopyIsIdentity(o: Object)
    ensures Assign([], o) == o
  {
    AssignAppends([], o);
  }

  lemma {:induction false} AssignAppends(p: Object, s: Object)
    requires UniqueKeys(p + s)
    ensures Assign(p, s) == p + s
    decreases |s|
  {
    if s != [] {
      forall i | 0 <= i < |p|
        ensures p[i].key != s[0].key
      {
        assert (p + s)[i] == p[i] && (p + s)[|p|] == s[0];
      }
      var p' := Set(p, s[0].key, s[0].val);
      assert p' == p + [s[0]];
      assert p' + s[1..] == p + s;
      AssignAppends(p', s[1..]);
    }
  }

  /** Of two assignments to the same key the later one wins, and the key
      keeps the place the first one gave it. */
  lemma SetOverwrite(o: Object, k: string, v1: Value, v2: Value)
    ensures Set(Set(o, k, v1), k, v2) == Set(o, k, v2)
  {
    var a := Set(Set(o, k, v1), k, v2);
    var b := Set(o, k, v2);
    assert |a| == |b|;
    forall j | 0 <= j < |a|
      ensures a[j] == b[j]
    {
      GetAt(a, j);
      GetAt(b, j);
    }
  }
}
