/** Canonical JSON (server/src/common/canonical.ts:10-25): recursively sorted
    keys printed without whitespace. Text is a sequence of UTF-16 code units;
    how a number prints is a parameter. */
module Canonical {

  type Unit = u: int | 0 <= u < 0x10000
  type Text = seq<Unit>

  /** A finite number, exactly: how many times the smallest positive binary64 value,
      2^-1074, it is. */
  type Number = int

  datatype Json =
    | Null
    | Bool(b: bool)
    | Num(n: Number)
    | Str(s: Text)
    | Arr(items: seq<Json>)
    | Obj(members: seq<Member>)

  /** A property, in the object's own enumeration order. */
  datatype Member = Member(key: Text, value: Json)

  // ---- key order -----------------------------------------------------------

  /** JavaScript's default string order: code unit by code unit. */
  predicate Less(a: Text, b: Text) {
    b != [] && (a == [] || a[0] < b[0] || (a[0] == b[0] && Less(a[1..], b[1..])))
  }

  lemma {:induction false} LessTotal(a: Text, b: Text)
    ensures Less(a, b) || Less(b, a) || a == b
    ensures !(Less(a, b) && (Less(b, a) || a == b))
  {
    if a != [] && b != [] && a[0] == b[0] {
      LessTotal(a[1..], b[1..]);
      assert a == [a[0]] + a[1..] && b == [b[0]] + b[1..];
    }
  }

  lemma {:induction false} LessTransitive(a: Text, b: Text, c: Text)
    requires Less(a, b) && Less(b, c)
    ensures Less(a, c)
  {
    if a != [] && a[0] == b[0] == c[0] {
      LessTransitive(a[1..], b[1..], c[1..]);
    }
  }

  function InsertKey(k: Text, ks: seq<Text>): seq<Text> {
    if ks == [] || Less(k, ks[0]) then [k] + ks else [ks[0]] + InsertKey(k, ks[1..])
  }

  function SortKeys(ks: seq<Text>): seq<Text> {
    if ks == [] then [] else InsertKey(ks[0], SortKeys(ks[1..]))
  }

  predicate DistinctKeys(ks: seq<Text>) {
    forall i, j :: 0 <= i < j < |ks| ==> ks[i] != ks[j]
  }

  predicate Ascending(ks: seq<Text>) {
    forall i, j :: 0 <= i < j < |ks| ==> Less(ks[i], ks[j])
  }

  lemma {:induction false} InsertKeyMembers(k: Text, ks: seq<Text>)
    ensures |InsertKey(k, ks)| == |ks| + 1
    ensures forall x :: x in InsertKey(k, ks) <==> x == k || x in ks
  {
    if ks != [] && !Less(k, ks[0]) {
      InsertKeyMembers(k, ks[1..]);
    }
  }

  lemma {:induction false} InsertKeyAscending(k: Text, ks: seq<Text>)
    requires Ascending(ks) && k !in ks
    ensures Ascending(InsertKey(k, ks))
  {
    if ks == [] {
    } else if Less(k, ks[0]) {
      forall j | 0 <= j < |ks|
        ensures Less(k, ks[j])
      {
        if j > 0 {
          LessTransitive(k, ks[0], ks[j]);
        }
      }
    } else {
      var r := InsertKey(k, ks[1..]);
      InsertKeyAscending(k, ks[1..]);
      InsertKeyMembers(k, ks[1..]);
      LessTotal(k, ks[0]);
      forall j | 0 <= j < |r|
        ensures Less(ks[0], r[j])
      {
        assert r[j] in r;
      }
    }
  }

  lemma {:induction false} SortKeysSorts(ks: seq<Text>)
    ensures |SortKeys(ks)| == |ks|
    ensures forall x :: x in SortKeys(ks) <==> x in ks
    ensures DistinctKeys(ks) ==> Ascending(SortKeys(ks))
  {
    if ks != [] {
      var rest := ks[1..];
      SortKeysSorts(rest);
      InsertKeyMembers(ks[0], SortKeys(rest));
      if DistinctKeys(ks) {
        assert DistinctKeys(rest);
        assert forall i :: 0 <= i < |rest| ==> rest[i] == ks[i + 1];
        InsertKeyAscending(ks[0], SortKeys(rest));
      }
    }
  }

  lemma {:induction false} AscendingUnique(a: seq<Text>, b: seq<Text>)
    requires Ascending(a) && Ascending(b) && forall x :: x in a <==> x in b
    ensures a == b
  {
    if a != [] {
      assert a[0] in b;
    }
    if b != [] {
      assert b[0] in a;
    }
    if a != [] && b != [] {
      SameLeast(a, b);
      forall x
        ensures x in a[1..] <==> x in b[1..]
      {
        HeadNotInTail(a);
        HeadNotInTail(b);
        assert x in a <==> x == a[0] || x in a[1..];
        assert x in b <==> x == b[0] || x in b[1..];
      }
      AscendingUnique(a[1..], b[1..]);
      assert a == [a[0]] + a[1..] && b == [b[0]] + b[1..];
    }
  }

  lemma HeadNotInTail(a: seq<Text>)
    requires Ascending(a) && a != []
    ensures a[0] !in a[1..]
  {
    if a[0] in a[1..] {
      var i :| 0 <= i < |a| - 1 && a[1..][i] == a[0];
      assert Less(a[0], a[i + 1]);
      LessTotal(a[0], a[0]);
    }
  }

  lemma SameLeast(a: seq<Text>, b: seq<Text>)
    requires Ascending(a) && Ascending(b) && a != [] && b != [] && forall x :: x in a <==> x in b
    ensures a[0] == b[0]
  {
    assert a[0] in b && b[0] in a;
    var i :| 0 <= i < |a| && a[i] == b[0];
    var j :| 0 <= j < |b| && b[j] == a[0];
    LessTotal(a[0], b[0]);
  }

  // ---- sortValue -----------------------------------------------------------

  function Keys(ms: seq<Member>): (ks: seq<Text>)
    ensures |ks| == |ms| && forall i :: 0 <= i < |ms| ==> ks[i] == ms[i].key
  {
    seq(|ms|, i requires 0 <= i < |ms| => ms[i].key)
  }

  function IndexOf(ks: seq<Text>, k: Text): (i: nat)
    requires k in ks
    ensures i < |ks| && ks[i] == k
  {
    if ks[0] == k then 0 else 1 + IndexOf(ks[1..], k)
  }

  function SortValue(v: Json): Json
    decreases v
  {
    match v
    case Arr(items) => Arr(seq(|items|, i requires 0 <= i < |items| => SortValue(items[i])))
    case Obj(ms) =>
      SortKeysSorts(Keys(ms));
      var ks := SortKeys(Keys(ms));
      Obj(seq(|ks|, i requires 0 <= i < |ks| =>
                assert ks[i] in Keys(ms);
                Member(ks[i], SortValue(ms[IndexOf(Keys(ms), ks[i])].value))))
    case _ => v
  }

  /** The loop that fills the output object key by key. */
  method ComputeSortValue(v: Json) returns (r: Json)
    ensures r == SortValue(v)
    decreases v
  {
    match v
    case Arr(items) =>
      var out := [];
      for i := 0 to |items|
        invariant |out| == i && forall j :: 0 <= j < i ==> out[j] == SortValue(items[j])
      {
        var x := ComputeSortValue(items[i]);
        out := out + [x];
      }
      r := Arr(out);
      assert r.items == SortValue(v).items;
    case Obj(ms) =>
      SortKeysSorts(Keys(ms));
      var ks := SortKeys(Keys(ms));
      var out := [];
      for i := 0 to |ks|
        invariant |out| == i && forall j :: 0 <= j < i ==> out[j] == SortValue(v).members[j]
      {
        assert ks[i] in Keys(ms);
        var x := ComputeSortValue(ms[IndexOf(Keys(ms), ks[i])].value);
        out := out + [Member(ks[i], x)];
      }
      r := Obj(out);
      assert r.members == SortValue(v).members;
    case _ =>
      r := v;
  }

  // ---- values and equality up to member order -------------------------------

  /** Every object has distinct keys, at every depth. */
  ghost predicate WellFormed(v: Json)
    decreases v
  {
    match v
    case Arr(items) => forall i :: 0 <= i < |items| ==> WellFormed(items[i])
    case Obj(ms) => DistinctKeys(Keys(ms)) && forall i :: 0 <= i < |ms| ==> WellFormed(ms[i].value)
    case _ => true
  }

  /** Equal up to the order of members, at every depth. */
  ghost predicate Equivalent(a: Json, b: Json)
    decreases a
  {
    match (a, b)
    case (Arr(xs), Arr(ys)) => |xs| == |ys| && forall i :: 0 <= i < |xs| ==> Equivalent(xs[i], ys[i])
    case (Obj(ms), Obj(ns)) =>
      && |ms| == |ns|
      && (forall i :: 0 <= i < |ms| ==> ms[i].key in Keys(ns))
      && (forall j :: 0 <= j < |ns| ==> ns[j].key in Keys(ms))
      && forall i, j :: 0 <= i < |ms| && 0 <= j < |ns| && ms[i].key == ns[j].key ==>
         Equivalent(ms[i].value, ns[j].value)
    case (_, _) => a == b
  }

  /** Sorting identifies exactly the values that are equal up to member order. */
  lemma {:induction false} SortIdentifies(a: Json, b: Json)
    requires WellFormed(a) && WellFormed(b)
    ensures SortValue(a) == SortValue(b) <==> Equivalent(a, b)
    decreases a
  {
    match (a, b)
    case (Arr(xs), Arr(ys)) =>
      if |xs| == |ys| {
        forall i | 0 <= i < |xs|
          ensures SortValue(xs[i]) == SortValue(ys[i]) <==> Equivalent(xs[i], ys[i])
        {
          SortIdentifies(xs[i], ys[i]);
        }
      }
      SortedItems(a);
      SortedItems(b);
      if Equivalent(a, b) {
        assert SortValue(a).items == SortValue(b).items;
      }
    case (Obj(ms), Obj(ns)) =>
      forall i, j | 0 <= i < |ms| && 0 <= j < |ns|
        ensures SortValue(ms[i].value) == SortValue(ns[j].value) <==> Equivalent(ms[i].value, ns[j].value)
      {
        SortIdentifies(ms[i].value, ns[j].value);
      }
      if SortValue(a) == SortValue(b) {
        SortedObjectsEquivalent(ms, ns);
      }
      if Equivalent(a, b) {
        EquivalentObjectsSorted(ms, ns);
      }
    case (_, _) =>
  }

  lemma SortedItems(a: Json)
    requires a.Arr?
    ensures SortValue(a).Arr? && |SortValue(a).items| == |a.items|
    ensures forall i :: 0 <= i < |a.items| ==> SortValue(a).items[i] == SortValue(a.items[i])
  {
  }

  /** Where a member ends up. */
  lemma SortedMember(ms: seq<Member>, k: nat)
    requires DistinctKeys(Keys(ms)) && k < |ms|
    ensures var out := SortValue(Obj(ms)).members;
            && |out| == |ms|
            && exists p :: 0 <= p < |out| && out[p] == Member(ms[k].key, SortValue(ms[k].value))
  {
    var ks := SortKeys(Keys(ms));
    SortKeysSorts(Keys(ms));
    assert Keys(ms)[k] in ks;
    var p :| 0 <= p < |ks| && ks[p] == ms[k].key;
    var i := IndexOf(Keys(ms), ks[p]);
    assert i == k;
    assert SortValue(Obj(ms)).members[p] == Member(ms[k].key, SortValue(ms[k].value));
  }

  /** Where a sorted member comes from. */
  lemma SortedOrigin(ms: seq<Member>, p: nat)
    requires p < |ms|
    ensures var out := SortValue(Obj(ms)).members;
            && |out| == |ms| && out[p].key == SortKeys(Keys(ms))[p]
            && exists k :: 0 <= k < |ms| && out[p] == Member(ms[k].key, SortValue(ms[k].value))
  {
    var ks := SortKeys(Keys(ms));
    SortKeysSorts(Keys(ms));
    assert ks[p] in Keys(ms);
    var k := IndexOf(Keys(ms), ks[p]);
    assert SortValue(Obj(ms)).members[p] == Member(ms[k].key, SortValue(ms[k].value));
  }

  lemma SortedObjectsEquivalent(ms: seq<Member>, ns: seq<Member>)
    requires DistinctKeys(Keys(ms)) && DistinctKeys(Keys(ns)) && SortValue(Obj(ms)) == SortValue(Obj(ns))
    requires forall i, j :: 0 <= i < |ms| && 0 <= j < |ns| ==>
                              (SortValue(ms[i].value) == SortValue(ns[j].value) <==>
                               Equivalent(ms[i].value, ns[j].value))
    ensures Equivalent(Obj(ms), Obj(ns))
  {
    hide SortValue;
    SameSize(ms, ns);
    forall i | 0 <= i < |ms|
      ensures ms[i].key in Keys(ns)
    {
      SharedMember(ms, ns, i);
    }
    forall j | 0 <= j < |ns|
      ensures ns[j].key in Keys(ms)
    {
      SharedMember(ns, ms, j);
    }
    forall i, j | 0 <= i < |ms| && 0 <= j < |ns| && ms[i].key == ns[j].key
      ensures Equivalent(ms[i].value, ns[j].value)
    {
      SharedMember(ms, ns, i);
      assert Keys(ns)[j] == ms[i].key;
    }
  }

  lemma SameSize(ms: seq<Member>, ns: seq<Member>)
    requires SortValue(Obj(ms)) == SortValue(Obj(ns))
    ensures |ms| == |ns|
  {
    SortKeysSorts(Keys(ms));
    SortKeysSorts(Keys(ns));
    assert |SortValue(Obj(ms)).members| == |ms| && |SortValue(Obj(ns)).members| == |ns|;
  }

  lemma SharedMember(ms: seq<Member>, ns: seq<Member>, i: nat)
    requires DistinctKeys(Keys(ms)) && DistinctKeys(Keys(ns))
    requires i < |ms| == |ns| && SortValue(Obj(ms)) == SortValue(Obj(ns))
    ensures ms[i].key in Keys(ns)
    ensures forall k :: 0 <= k < |ns| && Keys(ns)[k] == ms[i].key ==> SortValue(ms[i].value) == SortValue(ns[k].value)
  {
    SortedMember(ms, i);
    var p :| 0 <= p < |ms| && SortValue(Obj(ms)).members[p] == Member(ms[i].key, SortValue(ms[i].value));
    SortedOrigin(ns, p);
    var k :| 0 <= k < |ns| && SortValue(Obj(ns)).members[p] == Member(ns[k].key, SortValue(ns[k].value));
    assert Keys(ns)[k] == ms[i].key;
  }

  lemma EquivalentObjectsSorted(ms: seq<Member>, ns: seq<Member>)
    requires DistinctKeys(Keys(ms)) && DistinctKeys(Keys(ns)) && Equivalent(Obj(ms), Obj(ns))
    requires forall i, j :: 0 <= i < |ms| && 0 <= j < |ns| ==>
                              (SortValue(ms[i].value) == SortValue(ns[j].value) <==>
                               Equivalent(ms[i].value, ns[j].value))
    ensures SortValue(Obj(ms)) == SortValue(Obj(ns))
  {
    SortKeysSorts(Keys(ms));
    SortKeysSorts(Keys(ns));
    forall x
      ensures x in Keys(ms) <==> x in Keys(ns)
    {
      if x in Keys(ms) {
        assert ms[IndexOf(Keys(ms), x)].key in Keys(ns);
      }
      if x in Keys(ns) {
        assert ns[IndexOf(Keys(ns), x)].key in Keys(ms);
      }
    }
    AscendingUnique(SortKeys(Keys(ms)), SortKeys(Keys(ns)));
    var out, out' := SortValue(Obj(ms)).members, SortValue(Obj(ns)).members;
    forall p | 0 <= p < |ms|
      ensures out[p] == out'[p]
    {
      SortedOrigin(ms, p);
      SortedOrigin(ns, p);
      var k :| 0 <= k < |ms| && out[p] == Member(ms[k].key, SortValue(ms[k].value));
      var l :| 0 <= l < |ns| && out'[p] == Member(ns[l].key, SortValue(ns[l].value));
    }
    assert out == out';
  }
}
