/** The text of canonical JSON: keys in ascending order at every depth, each character
    as JSON.stringify prints it, and the very text of a token and of a request
    (server/src/common/canonical.ts:10-38). */
module CanonicalText {
  import opened Canonical
  import opened Printer
  import opened Types
  import opened Verify

  // ---- the order of keys ----------------------------------------------------------------

  lemma SamePrefix(a: Text, b: Text, k: nat)
    requires 0 < k <= |a| && k <= |b| && a[..k] == b[..k]
    ensures a[0] == b[0]
  {
    assert a[..k][0] == b[..k][0];
  }

  /** Order by UTF-16 units: at the first difference, or a proper prefix first. */
  lemma {:induction false} LessIff(a: Text, b: Text)
    ensures Less(a, b) <==>
            exists k: nat :: k <= |a| && k < |b| && a[..k] == b[..k] && (k == |a| || a[k] < b[k])
  {
    if a != [] && b != [] && a[0] == b[0] {
      LessIff(a[1..], b[1..]);
      if k: nat :| k <= |a| && k < |b| && a[..k] == b[..k] && (k == |a| || a[k] < b[k]) {
        assert k != 0;
        assert a[1..][..k - 1] == a[..k][1..] && b[1..][..k - 1] == b[..k][1..];
      }
      if k: nat :| k <= |a| - 1 && k < |b| - 1 && a[1..][..k] == b[1..][..k]
                   && (k == |a| - 1 || a[1..][k] < b[1..][k]) {
        assert a[..k + 1] == [a[0]] + a[1..][..k] && b[..k + 1] == [b[0]] + b[1..][..k];
      }
    } else if a != [] && b != [] {
      if k: nat :| k <= |a| && k < |b| && a[..k] == b[..k] && (k == |a| || a[k] < b[k]) {
        if k > 0 {
          SamePrefix(a, b, k);
        }
      }
      assert a[..0] == b[..0];
    } else if b != [] {
      assert a[..0] == b[..0];
    }
  }

  /** Every object of the value lists its keys in ascending order. */
  ghost predicate KeysAscend(v: Json)
    decreases v
  {
    match v
    case Arr(items) => forall i :: 0 <= i < |items| ==> KeysAscend(items[i])
    case Obj(ms) => Ascending(Keys(ms)) && forall i :: 0 <= i < |ms| ==> KeysAscend(ms[i].value)
    case _ => true
  }

  lemma AscendingDistinct(ks: seq<Text>)
    requires Ascending(ks)
    ensures DistinctKeys(ks)
  {
    forall i, j | 0 <= i < j < |ks|
      ensures ks[i] != ks[j]
    {
      LessTotal(ks[i], ks[j]);
    }
  }

  lemma KeysOfSorted(ms: seq<Member>)
    requires DistinctKeys(Keys(ms))
    ensures Keys(SortValue(Obj(ms)).members) == SortKeys(Keys(ms)) && Ascending(SortKeys(Keys(ms)))
  {
    hide SortKeys, Ascending;
    SortKeysSorts(Keys(ms));
    assert |SortValue(Obj(ms)).members| == |SortKeys(Keys(ms))|;
  }

  /** The sorted value's keys ascend at every depth. */
  lemma {:induction false} SortedKeysAscend(v: Json)
    requires WellFormed(v)
    ensures KeysAscend(SortValue(v))
    decreases v
  {
    match v
    case Arr(items) =>
      SortedItems(v);
      forall i | 0 <= i < |items|
        ensures KeysAscend(SortValue(v).items[i])
      {
        SortedKeysAscend(items[i]);
      }
    case Obj(ms) =>
      KeysOfSorted(ms);
      SortKeysSorts(Keys(ms));
      var out := SortValue(v).members;
      forall p | 0 <= p < |out|
        ensures KeysAscend(out[p].value)
      {
        SortedOrigin(ms, p);
        var k :| 0 <= k < |ms| && out[p] == Member(ms[k].key, SortValue(ms[k].value));
        SortedKeysAscend(ms[k].value);
      }
    case _ =>
  }

  lemma IndexInDistinct(ks: seq<Text>, i: nat)
    requires DistinctKeys(ks) && i < |ks|
    ensures IndexOf(ks, ks[i]) == i
  {
    var j := IndexOf(ks, ks[i]);
    assert ks[j] == ks[i];
  }

  /** A value whose keys already ascend is its own sorted value. */
  lemma {:induction false} AscendingIsSorted(v: Json)
    requires KeysAscend(v)
    ensures SortValue(v) == v && WellFormed(v)
    decreases v
  {
    match v
    case Arr(items) =>
      forall i | 0 <= i < |items|
        ensures SortValue(items[i]) == items[i] && WellFormed(items[i])
      {
        AscendingIsSorted(items[i]);
      }
      SortedItems(v);
    case Obj(ms) =>
      forall i | 0 <= i < |ms|
        ensures SortValue(ms[i].value) == ms[i].value && WellFormed(ms[i].value)
      {
        AscendingIsSorted(ms[i].value);
      }
      AscendingDistinct(Keys(ms));
      SameSorted(ms);
    case _ =>
  }

  lemma SameSorted(ms: seq<Member>)
    requires Ascending(Keys(ms)) && DistinctKeys(Keys(ms))
    requires forall i :: 0 <= i < |ms| ==> SortValue(ms[i].value) == ms[i].value
    ensures SortValue(Obj(ms)) == Obj(ms)
  {
    hide Ascending, SortKeys, DistinctKeys, IndexOf;
    SortKeysSorts(Keys(ms));
    AscendingUnique(SortKeys(Keys(ms)), Keys(ms));
    var out := SortValue(Obj(ms)).members;
    assert |out| == |ms|;
    forall i | 0 <= i < |ms|
      ensures out[i] == ms[i]
    {
      IndexInDistinct(Keys(ms), i);
      assert Keys(ms)[i] == ms[i].key;
    }
    assert out == ms;
  }

  /** Sorting changes nothing but the order of members: the sorted value is the one
      value with ascending keys that equals the given one up to member order. */
  lemma SortedIsTheOne(v: Json, w: Json)
    requires WellFormed(v)
    ensures w == SortValue(v) <==> KeysAscend(w) && Equivalent(v, w)
  {
    hide WellFormed, KeysAscend, SortValue, Equivalent;
    SortedKeysAscend(v);
    AscendingIsSorted(SortValue(v));
    SortIdentifies(v, SortValue(v));
    if KeysAscend(w) && Equivalent(v, w) {
      AscendingIsSorted(w);
      SortIdentifies(v, w);
    }
  }

  // ---- characters -----------------------------------------------------------------------

  predicate Plain(u: Unit) {
    32 <= u < 0xD800 && u != 34 && u != 92
  }

  /** Text without quotes, backslashes, controls and surrogates prints as itself. */
  lemma {:induction false} PlainPrints(s: Text)
    requires forall i :: 0 <= i < |s| ==> Plain(s[i])
    ensures Escape(s) == s && Quote(s) == [34] + s + [34]
  {
    if s != [] {
      PlainPrints(s[1..]);
      assert s == [s[0]] + s[1..];
    }
  }

  /** The short escapes, the controls in four lower-case hex digits, and the
      surrogates: alone in four digits, paired as they are. */
  lemma EscapedPrints(u: Unit, lead: Unit, trail: Unit)
    requires u < 32 && 0xD800 <= lead < 0xDC00 <= trail < 0xE000
    ensures Quote([34]) == [34, 92, 34, 34] && Quote([92]) == [34, 92, 92, 34]
    ensures Quote([8]) == [34, 92, 98, 34] && Quote([9]) == [34, 92, 116, 34] && Quote([10]) == [34, 92, 110, 34]
    ensures Quote([12]) == [34, 92, 102, 34] && Quote([13]) == [34, 92, 114, 34]
    ensures u !in {8, 9, 10, 12, 13} ==>
              Quote([u]) == [34, 92, 117, 48, 48, 48 + u / 16, if u % 16 < 10 then 48 + u % 16 else 87 + u % 16, 34]
    ensures Quote([0xD83D]) == [34, 92, 117, 100, 56, 51, 100, 34]
    ensures Quote([lead, trail]) == [34, lead, trail, 34]
  {
    OneUnit(34);
    OneUnit(92);
    OneUnit(8);
    OneUnit(9);
    OneUnit(10);
    OneUnit(12);
    OneUnit(13);
    OneUnit(u);
    OneUnit(0xD83D);
    assert [lead, trail][..2] == [lead, trail] && [lead, trail][2..] == [];
    assert Escape([lead, trail]) == [lead, trail] + Escape([]);
  }

  lemma OneUnit(u: Unit)
    ensures Escape([u]) == EscapeUnit(u)
  {
    assert [u][1..] == [];
    assert Escape([u]) == EscapeUnit(u) + Escape([]);
  }

  // ---- whole values ----------------------------------------------------------------------

  /** Texts with a comma between each two. */
  function Joined(texts: seq<Text>): Text {
    if texts == [] then []
    else if |texts| == 1 then texts[0]
    else Joined(texts[..|texts| - 1]) + [44] + texts[|texts| - 1]
  }

  lemma {:induction false} JoinedHead(texts: seq<Text>)
    requires |texts| > 1
    ensures Joined(texts) == texts[0] + [44] + Joined(texts[1..])
  {
    if |texts| > 2 {
      JoinedHead(texts[..|texts| - 1]);
      assert texts[..|texts| - 1][1..] == texts[1..][..|texts[1..]| - 1];
    } else {
      assert texts[..1] == [texts[0]] && texts[1..] == [texts[1]];
    }
  }

  function Printed(number: Number -> Text, items: seq<Json>): seq<Text> {
    seq(|items|, i requires 0 <= i < |items| => Print(number, items[i]))
  }

  function PrintedMembers(number: Number -> Text, ms: seq<Member>): seq<Text> {
    seq(|ms|, i requires 0 <= i < |ms| => Quote(ms[i].key) + [58] + Print(number, ms[i].value))
  }

  lemma Closed(head: Text, joined: Text, close: Text)
    ensures head + ([44] + (joined + close)) == head + [44] + joined + close
  {
  }

  lemma NextItem(number: Number -> Text, items: seq<Json>)
    requires items != []
    ensures PrintItems(number, items) == [44] + (Print(number, items[0]) + PrintItems(number, items[1..]))
  {
    hide Print;
  }

  lemma NextMember(number: Number -> Text, ms: seq<Member>)
    requires ms != []
    ensures PrintMembers(number, ms) == [44] + (PrintMember(number, ms[0]) + PrintMembers(number, ms[1..]))
  {
    hide PrintMember;
  }

  lemma {:induction false} ItemsText(number: Number -> Text, items: seq<Json>)
    requires items != []
    ensures Print(number, items[0]) + PrintItems(number, items[1..]) == Joined(Printed(number, items)) + [93]
    decreases |items|
  {
    hide Print, Joined, PrintItems;
    var texts := Printed(number, items);
    if |items| == 1 {
      assert items[1..] == [] && texts == [texts[0]];
      LastItem(number, texts[0]);
    } else {
      ItemsText(number, items[1..]);
      JoinedHead(texts);
      assert texts[1..] == Printed(number, items[1..]);
      NextItem(number, items[1..]);
      Closed(texts[0], Joined(texts[1..]), [93]);
    }
  }

  lemma LastItem(number: Number -> Text, text: Text)
    ensures Joined([text]) == text && PrintItems(number, []) == [93] && PrintMembers(number, []) == [125]
  {
  }

  lemma {:induction false} MembersText(number: Number -> Text, ms: seq<Member>)
    requires ms != []
    ensures PrintMember(number, ms[0]) + PrintMembers(number, ms[1..]) == Joined(PrintedMembers(number, ms)) + [125]
    decreases |ms|
  {
    hide Print, Joined, PrintMembers, Quote;
    var texts := PrintedMembers(number, ms);
    assert texts[0] == PrintMember(number, ms[0]);
    if |ms| == 1 {
      assert ms[1..] == [] && texts == [texts[0]];
      LastItem(number, texts[0]);
    } else {
      MembersText(number, ms[1..]);
      JoinedHead(texts);
      assert texts[1..] == PrintedMembers(number, ms[1..]);
      NextMember(number, ms[1..]);
      Closed(texts[0], Joined(texts[1..]), [125]);
    }
  }

  /** Every value as text: the three words, numbers by the number printer, text in
      quotes, and arrays and objects with commas between and no white space. */
  lemma ValueText(number: Number -> Text, n: Number, s: Text, items: seq<Json>, ms: seq<Member>)
    ensures Print(number, Null) == Ascii("null") && Print(number, Bool(true)) == Ascii("true")
    ensures Print(number, Bool(false)) == Ascii("false")
    ensures Print(number, Num(n)) == number(n) && Print(number, Str(s)) == Quote(s)
    ensures Print(number, Arr(items)) == [91] + Joined(Printed(number, items)) + [93]
    ensures Print(number, Obj(ms)) == [123] + Joined(PrintedMembers(number, ms)) + [125]
  {
    hide Joined, PrintItems, PrintMembers, PrintMember, Quote, Printed, PrintedMembers;
    ArrayText(number, items);
    ObjectText(number, ms);
    WordsText(number);
  }

  lemma WordsText(number: Number -> Text)
    ensures Print(number, Null) == Ascii("null") && Print(number, Bool(true)) == Ascii("true")
    ensures Print(number, Bool(false)) == Ascii("false")
  {
  }

  lemma ArrayText(number: Number -> Text, items: seq<Json>)
    ensures Print(number, Arr(items)) == [91] + Joined(Printed(number, items)) + [93]
  {
    hide PrintItems;
    if items != [] {
      hide Joined, Printed;
      ItemsText(number, items);
    }
  }

  lemma ObjectText(number: Number -> Text, ms: seq<Member>)
    ensures Print(number, Obj(ms)) == [123] + Joined(PrintedMembers(number, ms)) + [125]
  {
    hide PrintMembers, PrintMember, Quote;
    if ms != [] {
      hide Joined, PrintedMembers;
      MembersText(number, ms);
    }
  }

  // ---- the text of tokens and requests ---------------------------------------------------

  lemma NamesPlain(name: string)
    requires forall i :: 0 <= i < |name| ==> 'A' <= name[i] <= 'z' && name[i] != '\\'
    ensures Quote(Ascii(name)) == [34] + Ascii(name) + [34]
  {
    forall i | 0 <= i < |name|
      ensures Plain(Ascii(name)[i])
    {
    }
    PlainPrints(Ascii(name));
  }

  lemma AsciiUnits(text: string, i: nat)
    requires i < |text| && text[i] < 128 as char
    ensures |Ascii(text)| == |text| && Ascii(text)[i] == text[i] as int
  {
  }

  function SortedToken(p: TokenPayload): Json {
    Obj([Member(Ascii("amountKwh"), Num(p.amountKwh)), Member(Ascii("debitRef"), Str(p.debitRef)),
         Member(Ascii("meterId"), Str(p.meterId)), Member(Ascii("nonce"), Str(p.nonce))])
  }

  function SortedRequest(r: Request): Json {
    Obj([Member(Ascii("amountKwh"), Num(r.amountKwh)), Member(Ascii("merchantId"), Str(r.merchantId)),
         Member(Ascii("meterId"), Str(r.meterId)), Member(Ascii("requestId"), Str(r.requestId)),
         Member(Ascii("timestamp"), Str(r.timestamp))])
  }

  lemma LessByHead(a: string, b: string)
    requires a != "" && b != "" && a[0] < b[0] < 128 as char
    ensures Less(Ascii(a), Ascii(b))
  {
    AsciiUnits(a, 0);
    AsciiUnits(b, 0);
  }

  lemma MerchantBeforeMeter()
    ensures Less(Ascii("merchantId"), Ascii("meterId"))
  {
    var a, b := Ascii("merchantId"), Ascii("meterId");
    assert a[0] == b[0] == 109 && a[1] == b[1] == 101 && a[2] == 114 && b[2] == 116;
    assert a[1..][1..][0] == 114 && b[1..][1..][0] == 116;
    assert Less(a[1..][1..], b[1..][1..]);
    assert Less(a[1..], b[1..]);
  }

  lemma TokenKeysAscend(p: TokenPayload)
    ensures KeysAscend(SortedToken(p))
  {
    hide Less, Ascii;
    var ks := Keys(SortedToken(p).members);
    assert ks == [Ascii("amountKwh"), Ascii("debitRef"), Ascii("meterId"), Ascii("nonce")];
    LessByHead("amountKwh", "debitRef");
    LessByHead("amountKwh", "meterId");
    LessByHead("amountKwh", "nonce");
    LessByHead("debitRef", "meterId");
    LessByHead("debitRef", "nonce");
    LessByHead("meterId", "nonce");
    assert Ascending(ks);
  }

  lemma TokenSorts(p: TokenPayload)
    ensures SortValue(TokenJson(p)) == SortedToken(p)
  {
    hide SortValue, KeysAscend, Less;
    TokenKeysAscend(p);
    TokenJsonWellFormed(p);
    var ms, ns := TokenJson(p).members, SortedToken(p).members;
    assert ms == [ns[2], ns[0], ns[1], ns[3]];
    assert DistinctKeys(Keys(ns)) by {
      TokenDistinct(p);
    }
    SameMembersEquivalent(ms, ns);
    SortedIsTheOne(TokenJson(p), SortedToken(p));
  }

  lemma TokenDistinct(p: TokenPayload)
    ensures DistinctKeys(Keys(SortedToken(p).members))
  {
    TokenKeysAscend(p);
    AscendingDistinct(Keys(SortedToken(p).members));
  }

  /** Objects with the same members and distinct keys are equal up to order. */
  lemma SameMembersEquivalent(ms: seq<Member>, ns: seq<Member>)
    requires |ms| == |ns| && (forall m :: m in ms <==> m in ns) && DistinctKeys(Keys(ns))
    requires forall m :: m in ns ==> m.value.Str? || m.value.Num?
    ensures Equivalent(Obj(ms), Obj(ns))
  {
    forall i | 0 <= i < |ms|
      ensures ms[i].key in Keys(ns)
    {
      assert ms[i] in ns;
      var j :| 0 <= j < |ns| && ns[j] == ms[i];
      assert Keys(ns)[j] == ms[i].key;
    }
    forall j | 0 <= j < |ns|
      ensures ns[j].key in Keys(ms)
    {
      assert ns[j] in ms;
      var i :| 0 <= i < |ms| && ms[i] == ns[j];
      assert Keys(ms)[i] == ns[j].key;
    }
    forall i, j | 0 <= i < |ms| && 0 <= j < |ns| && ms[i].key == ns[j].key
      ensures Equivalent(ms[i].value, ns[j].value)
    {
      assert ms[i] in ns;
      var k :| 0 <= k < |ns| && ns[k] == ms[i];
      assert Keys(ns)[k] == Keys(ns)[j];
    }
  }

  lemma RequestKeysAscend(r: Request)
    ensures KeysAscend(SortedRequest(r))
  {
    hide Less, Ascii;
    var ks := Keys(SortedRequest(r).members);
    assert ks == [Ascii("amountKwh"), Ascii("merchantId"), Ascii("meterId"), Ascii("requestId"), Ascii("timestamp")];
    LessByHead("amountKwh", "merchantId");
    LessByHead("amountKwh", "meterId");
    LessByHead("amountKwh", "requestId");
    LessByHead("amountKwh", "timestamp");
    MerchantBeforeMeter();
    LessByHead("merchantId", "requestId");
    LessByHead("merchantId", "timestamp");
    LessByHead("meterId", "requestId");
    LessByHead("meterId", "timestamp");
    LessByHead("requestId", "timestamp");
    assert Ascending(ks);
  }

  lemma RequestSorts(r: Request)
    ensures SortValue(RequestJson(r)) == SortedRequest(r)
  {
    hide SortValue, KeysAscend, Less;
    RequestKeysAscend(r);
    RequestJsonWellFormed(r);
    var ms, ns := RequestJson(r).members, SortedRequest(r).members;
    assert ms == [ns[3], ns[2], ns[0], ns[1], ns[4]];
    assert DistinctKeys(Keys(ns)) by {
      RequestDistinct(r);
    }
    SameMembersEquivalent(ms, ns);
    SortedIsTheOne(RequestJson(r), SortedRequest(r));
  }

  lemma RequestDistinct(r: Request)
    ensures DistinctKeys(Keys(SortedRequest(r).members))
  {
    RequestKeysAscend(r);
    AscendingDistinct(Keys(SortedRequest(r).members));
  }

  /** One member of an object, printed. */
  lemma MemberText(number: Number -> Text, name: string, v: Json)
    requires forall i :: 0 <= i < |name| ==> 'A' <= name[i] <= 'z' && name[i] != '\\'
    ensures PrintMember(number, Member(Ascii(name), v)) == [34] + Ascii(name) + [34, 58] + Print(number, v)
  {
    NamesPlain(name);
  }

  /** The message a token is signed under, character by character: no white space, the
      four fields by name in this order, text in quotes and units as a number. */
  lemma MessageText(env: Env, p: TokenPayload)
    ensures Message(env, p) ==
            [123] + ([34] + Ascii("amountKwh") + [34, 58] + env.number(p.amountKwh))
            + [44] + ([34] + Ascii("debitRef") + [34, 58] + Quote(p.debitRef))
            + [44] + ([34] + Ascii("meterId") + [34, 58] + Quote(p.meterId))
            + [44] + ([34] + Ascii("nonce") + [34, 58] + Quote(p.nonce)) + [125]
  {
    hide SortValue, Quote, Ascii;
    TokenSorts(p);
    MemberText(env.number, "amountKwh", Num(p.amountKwh));
    MemberText(env.number, "debitRef", Str(p.debitRef));
    MemberText(env.number, "meterId", Str(p.meterId));
    MemberText(env.number, "nonce", Str(p.nonce));
    var ms := SortedToken(p).members;
    FourMembers(env.number, ms);
  }

  lemma FourMembers(number: Number -> Text, ms: seq<Member>)
    requires |ms| == 4
    ensures Print(number, Obj(ms)) ==
            [123] + PrintMember(number, ms[0]) + [44] + PrintMember(number, ms[1])
            + [44] + PrintMember(number, ms[2]) + [44] + PrintMember(number, ms[3]) + [125]
  {
    hide PrintMember;
    OneMember(number, ms[1..]);
    OneMember(number, ms[2..]);
    OneMember(number, ms[3..]);
    assert ms[1..][1..] == ms[2..] && ms[2..][1..] == ms[3..] && ms[3..][1..] == ms[4..] == [];
    assert PrintMembers(number, []) == [125];
    assert Print(number, Obj(ms)) == [123] + (PrintMember(number, ms[0]) + PrintMembers(number, ms[1..]));
  }

  lemma OneMember(number: Number -> Text, ms: seq<Member>)
    requires ms != []
    ensures PrintMembers(number, ms) == [44] + PrintMember(number, ms[0]) + PrintMembers(number, ms[1..])
  {
  }

  /** What is hashed for a request, character by character. */
  lemma HashedText(env: Env, r: Request)
    ensures HashRequest(env, r) == env.sha256Hex(
              [123] + ([34] + Ascii("amountKwh") + [34, 58] + env.number(r.amountKwh))
              + [44] + ([34] + Ascii("merchantId") + [34, 58] + Quote(r.merchantId))
              + [44] + ([34] + Ascii("meterId") + [34, 58] + Quote(r.meterId))
              + [44] + ([34] + Ascii("requestId") + [34, 58] + Quote(r.requestId))
              + [44] + ([34] + Ascii("timestamp") + [34, 58] + Quote(r.timestamp)) + [125])
  {
    hide SortValue, Quote, Ascii;
    RequestSorts(r);
    MemberText(env.number, "amountKwh", Num(r.amountKwh));
    MemberText(env.number, "merchantId", Str(r.merchantId));
    MemberText(env.number, "meterId", Str(r.meterId));
    MemberText(env.number, "requestId", Str(r.requestId));
    MemberText(env.number, "timestamp", Str(r.timestamp));
    FiveMembers(env.number, SortedRequest(r).members);
  }

  lemma FiveMembers(number: Number -> Text, ms: seq<Member>)
    requires |ms| == 5
    ensures Print(number, Obj(ms)) ==
            [123] + PrintMember(number, ms[0]) + [44] + PrintMember(number, ms[1])
            + [44] + PrintMember(number, ms[2]) + [44] + PrintMember(number, ms[3])
            + [44] + PrintMember(number, ms[4]) + [125]
  {
    hide PrintMember;
    OneMember(number, ms[1..]);
    OneMember(number, ms[2..]);
    OneMember(number, ms[3..]);
    OneMember(number, ms[4..]);
    assert ms[1..][1..] == ms[2..] && ms[2..][1..] == ms[3..] && ms[3..][1..] == ms[4..] && ms[4..][1..] == [];
    assert PrintMembers(number, []) == [125];
    assert Print(number, Obj(ms)) == [123] + (PrintMember(number, ms[0]) + PrintMembers(number, ms[1..]));
  }
}
