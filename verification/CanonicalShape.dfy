/** What the canonical text looks like, code unit by code unit.  The round trips say that the text
    determines the value; a client that signs the same payload must also produce the very same
    text, so the order of keys, the escapes, the form of numbers and the punctuation are stated
    here on the code units themselves. */
module CanonicalShape {
  import opened JsonText
  import opened CanonicalJson

  // ---------------------------------------------------------------- the order of keys

  /** Up to `k` the texts agree; there the first ends, or has the smaller code unit. */
  ghost predicate DiffersAt(a: Text, b: Text, k: nat) {
    && k <= |a| && k <= |b| && a[..k] == b[..k]
    && ((k == |a| && k < |b|) || (k < |a| && k < |b| && a[k] < b[k]))
  }

  ghost predicate Smaller(a: Text, b: Text) {
    exists k :: DiffersAt(a, b, k)
  }

  ghost predicate SmallestFirst(s: seq<Text>) {
    forall i, j :: 0 <= i < j < |s| ==> Smaller(s[i], s[j])
  }

  lemma {:induction false} BeforeIsSmaller(a: Text, b: Text)
    requires Before(a, b)
    ensures Smaller(a, b)
  {
    if a == [] || a[0] != b[0] {
      assert DiffersAt(a, b, 0);
    } else {
      BeforeIsSmaller(a[1..], b[1..]);
      var k: nat :| DiffersAt(a[1..], b[1..], k);
      assert a[..k + 1] == [a[0]] + a[1..][..k] && b[..k + 1] == [b[0]] + b[1..][..k];
      assert DiffersAt(a, b, k + 1);
    }
  }

  /** Of the sorted keys each is smaller than all that follow. */
  lemma SortedSmallestFirst(keys: seq<Text>)
    requires Distinct(keys)
    ensures SmallestFirst(SortKeys(keys))
  {
    hide Before, Smaller;
    SortKeysAscending(keys);
    var s := SortKeys(keys);
    forall i, j | 0 <= i < j < |s| ensures Smaller(s[i], s[j]) {
      BeforeIsSmaller(s[i], s[j]);
    }
  }

  /** Reads the members of an object, up to its closing brace, and lists their keys as printed. */
  function ReadKeys(t: Text): (r: Parsed<seq<Text>>)
    ensures r.Ok? ==> |r.rest| < |t|
    decreases |t|
  {
    match ReadMember(t)
    case Fail => Fail
    case Ok(member, rest) =>
      if rest == [] then Fail
      else if rest[0] == 0x7D then Ok([member.0], rest[1..])
      else if rest[0] != 0x2C then Fail
      else
        match ReadKeys(rest[1..])
        case Fail => Fail
        case Ok(keys, rest') => Ok([member.0] + keys, rest')
  }

  lemma LastKey(text: Text, key: Text, value: Json, rest: Text)
    requires MemberReads(text, key, value)
    ensures ReadKeys(text + [CLOSE_OBJECT] + rest) == Ok([key], rest)
  {
    hide ReadMember, MemberReads;
    assert text + [CLOSE_OBJECT] + rest == text + ([CLOSE_OBJECT] + rest);
    ReadMemberBefore(text, key, value, [CLOSE_OBJECT] + rest);
  }

  lemma MoreKeys(text: Text, key: Text, value: Json, more: Text, keys: seq<Text>, rest: Text)
    requires MemberReads(text, key, value)
    requires ReadKeys(more) == Ok(keys, rest)
    ensures ReadKeys(text + [COMMA] + more) == Ok([key] + keys, rest)
  {
    hide ReadMember, MemberReads;
    assert text + [COMMA] + more == text + ([COMMA] + more);
    ReadMemberBefore(text, key, value, [COMMA] + more);
    assert ([COMMA] + more)[1..] == more;
  }

  lemma {:induction false} KeysRead(texts: seq<Text>, keys: seq<Text>, fields: map<Text, Json>, rest: Text)
    requires AllMembersRead(texts, keys, fields) && texts != []
    ensures ReadKeys(Join(texts) + [CLOSE_OBJECT] + rest) == Ok(keys, rest)
  {
    hide ReadKeys, MemberReads, Join;
    JoinStep(texts, [CLOSE_OBJECT] + rest);
    assert Join(texts) + [CLOSE_OBJECT] + rest == Join(texts) + ([CLOSE_OBJECT] + rest);
    if |texts| == 1 {
      LastKey(texts[0], keys[0], fields[keys[0]], rest);
      assert keys == [keys[0]];
    } else {
      var more := Join(texts[1..]) + [CLOSE_OBJECT] + rest;
      KeysRead(texts[1..], keys[1..], fields, rest);
      MoreKeys(texts[0], keys[0], fields[keys[0]], more, keys[1..], rest);
      assert Join(texts[1..]) + ([CLOSE_OBJECT] + rest) == more;
      assert keys == [keys[0]] + keys[1..];
    }
  }

  lemma JoinStep(texts: seq<Text>, tail: Text)
    requires texts != []
    ensures |texts| == 1 ==> Join(texts) == texts[0]
    ensures |texts| > 1 ==> Join(texts) + tail == texts[0] + [COMMA] + (Join(texts[1..]) + tail)
  {
    if |texts| > 1 {
      assert texts[0] + [COMMA] + Join(texts[1..]) + tail == texts[0] + [COMMA] + (Join(texts[1..]) + tail);
    }
  }

  /** The members of an object, read off its canonical text in the order they are printed, have
      exactly the keys of the object, the smallest first. */
  lemma PrintedKeysAscend(v: Js)
    requires WellFormed(v) && v.Obj? && v.keys != []
    ensures Canonical(v)[..1] == [0x7B]
    ensures var r := ReadKeys(Canonical(v)[1..]);
      r.Ok? && r.rest == [] && SmallestFirst(r.value) && forall k :: k in r.value <==> k in v.keys
  {
    hide Member, MemberReads, ReadKeys, SortKeys, Join, SmallestFirst;
    var sorted := SortKeys(v.keys);
    var texts := seq(|sorted|, i requires 0 <= i < |sorted| => Member(v, sorted[i]));
    var fields := map k | k in v.fields :: Logical(v.fields[k]);
    SortKeysMembers(v.keys);
    forall i | 0 <= i < |texts| ensures MemberReads(texts[i], sorted[i], fields[sorted[i]]) {
      MemberRoundTrip(v, sorted[i]);
    }
    assert v.keys[0] in sorted;
    KeysRead(texts, sorted, fields, []);
    SortedSmallestFirst(v.keys);
    var inner := Join(texts) + [CLOSE_OBJECT];
    assert Canonical(v) == [OPEN_OBJECT] + inner;
    assert Canonical(v)[1..] == inner && inner + [] == inner;
  }

  // ---------------------------------------------------------------- punctuation and words

  /** The texts of the values without structure. */
  lemma ScalarTexts(negative: bool)
    ensures Canonical(Null) == Canonical(Undefined) == Canonical(NonFinite) == [0x6E, 0x75, 0x6C, 0x6C]
    ensures Canonical(Bool(true)) == [0x74, 0x72, 0x75, 0x65]
    ensures Canonical(Bool(false)) == [0x66, 0x61, 0x6C, 0x73, 0x65]
    ensures Canonical(Zero(negative)) == [0x30]
  {
  }

  lemma {:induction false} JoinAppend(texts: seq<Text>, last: Text)
    requires texts != []
    ensures Join(texts + [last]) == Join(texts) + [0x2C] + last
  {
    var all := texts + [last];
    if |texts| == 1 {
      assert all[1..] == [last];
      assert Join(all) == all[0] + [COMMA] + Join(all[1..]);
    } else {
      assert all[1..] == texts[1..] + [last];
      JoinAppend(texts[1..], last);
      assert texts[0] + [COMMA] + (Join(texts[1..]) + [0x2C] + last)
          == (texts[0] + [COMMA] + Join(texts[1..])) + [0x2C] + last;
    }
  }

  /** An array is its items in order, with a comma between two and brackets around all. */
  lemma ArrayText(items: seq<Js>, last: Js)
    ensures Canonical(Arr([])) == [0x5B, 0x5D]
    ensures Canonical(Arr([last])) == [0x5B] + Canonical(last) + [0x5D]
    ensures items != [] ==>
      var front := Canonical(Arr(items));
      |front| >= 1 && Canonical(Arr(items + [last])) == front[..|front| - 1] + [0x2C] + Canonical(last) + [0x5D]
  {
    ItemTexts([]);
    ItemTexts([last]);
    ItemTexts(items);
    ItemTexts(items + [last]);
    hide Canonical, Join;
    assert Texts([]) == [] && Texts([last]) == [Canonical(last)];
    EmptyJoin(Canonical(last));
    if items != [] {
      assert Texts(items + [last]) == Texts(items) + [Canonical(last)];
      JoinAppend(Texts(items), Canonical(last));
      var front := Canonical(Arr(items));
      assert front[..|front| - 1] == [0x5B] + Join(Texts(items));
    }
  }

  ghost function Texts(items: seq<Js>): seq<Text> {
    seq(|items|, i requires 0 <= i < |items| => Canonical(items[i]))
  }

  lemma ItemTexts(items: seq<Js>)
    ensures Canonical(Arr(items)) == [0x5B] + Join(Texts(items)) + [0x5D]
  {
  }

  lemma EmptyJoin(text: Text)
    ensures Join([]) == [] && Join([text]) == text
  {
  }

  /** A member is its quoted key, a colon and its value; an object with one has braces around it. */
  lemma MemberText(key: Text, value: Js)
    ensures Canonical(Obj([], map[])) == [0x7B, 0x7D]
    ensures Canonical(Obj([key], map[key := value])) == [0x7B] + Quote(key) + [0x3A] + Canonical(value) + [0x7D]
  {
    hide Canonical, Quote, Join;
    var v := Obj([key], map[key := value]);
    MemberTexts(v);
    MemberTexts(Obj([], map[]));
    OneKeySorted(key);
    assert MembersOf(v, [key]) == [Member(v, key)] && MembersOf(Obj([], map[]), []) == [];
    EmptyJoin(Member(v, key));
    assert Member(v, key) == Quote(key) + [0x3A] + Canonical(value);
  }

  ghost function MembersOf(v: Js, keys: seq<Text>): seq<Text>
    requires v.Obj?
  {
    seq(|keys|, i requires 0 <= i < |keys| => Member(v, keys[i]))
  }

  lemma MemberTexts(v: Js)
    requires v.Obj?
    ensures Canonical(v) == [0x7B] + Join(MembersOf(v, SortKeys(v.keys))) + [0x7D]
  {
    hide Join, Quote, SortKeys, Member;
  }

  lemma OneKeySorted(key: Text)
    ensures SortKeys([]) == [] && SortKeys([key]) == [key]
  {
    hide Before;
    assert [key][1..] == [];
  }

  // ---------------------------------------------------------------- strings

  /** The hexadecimal digit of `d`, letters in lower case. */
  function LowerHex(d: int): int {
    if d < 10 then 0x30 + d else 0x57 + d
  }

  /** How a code unit on its own is written, as section 7 of RFC 8259 and the well-formed
      `JSON.stringify` of ECMA-262 prescribe. */
  lemma UnitText(u: Unit)
    ensures Quote([u]) == [0x22] + EscapeUnit(u) + [0x22]
    ensures u == 0x08 ==> EscapeUnit(u) == [0x5C, 0x62]
    ensures u == 0x09 ==> EscapeUnit(u) == [0x5C, 0x74]
    ensures u == 0x0A ==> EscapeUnit(u) == [0x5C, 0x6E]
    ensures u == 0x0C ==> EscapeUnit(u) == [0x5C, 0x66]
    ensures u == 0x0D ==> EscapeUnit(u) == [0x5C, 0x72]
    ensures u == 0x22 || u == 0x5C ==> EscapeUnit(u) == [0x5C, u]
    ensures u < 0x20 && u !in {0x08, 0x09, 0x0A, 0x0C, 0x0D} ==>
      EscapeUnit(u) == [0x5C, 0x75, 0x30, 0x30, 0x30 + u / 16, LowerHex(u % 16)]
    ensures 0xD800 <= u < 0xE000 ==>
      EscapeUnit(u) == [0x5C, 0x75, 0x64, LowerHex(u / 256 % 16), LowerHex(u / 16 % 16), LowerHex(u % 16)]
    ensures u >= 0x20 && u != 0x22 && u != 0x5C && !(0xD800 <= u < 0xE000) ==> EscapeUnit(u) == [u]
  {
    assert [u][1..] == [];
    assert Escape([u]) == EscapeUnit(u) + [];
    if u < 0x20 {
      assert u / 0x1000 == 0 && u / 0x100 == 0 && u / 16 % 16 == u / 16 < 2;
    } else if 0xD800 <= u < 0xE000 {
      assert u / 0x1000 == 13;
    }
  }

  /** A text is written piece by piece, except that a surrogate pair, which is copied, must not
      be cut in two. */
  lemma {:induction false} TextInPieces(a: Text, b: Text)
    requires !(a != [] && b != [] && 0xD800 <= a[|a| - 1] < 0xDC00 && 0xDC00 <= b[0] < 0xE000)
    ensures Escape(a + b) == Escape(a) + Escape(b)
    decreases |a|
  {
    hide Escape, EscapeUnit;
    var s := a + b;
    if a == [] {
      assert s == b;
      NothingEscaped();
      assert [] + Escape(b) == Escape(b);
    } else if IsHighSurrogate(a[0]) && |a| >= 2 && IsLowSurrogate(a[1]) {
      assert s[2..] == a[2..] + b && s[0] == a[0] && s[1] == a[1];
      EscapePair(a);
      EscapePair(s);
      TextInPieces(a[2..], b);
      Regroup([a[0], a[1]], Escape(a[2..]), Escape(b));
    } else {
      assert s[1..] == a[1..] + b && s[0] == a[0];
      assert |a| >= 2 ==> s[1] == a[1];
      EscapeOne(a);
      EscapeOne(s);
      TextInPieces(a[1..], b);
      Regroup(EscapeUnit(a[0]), Escape(a[1..]), Escape(b));
    }
  }

  lemma NothingEscaped()
    ensures Escape([]) == []
  {
  }

  lemma EscapePair(s: Text)
    requires |s| >= 2 && IsHighSurrogate(s[0]) && IsLowSurrogate(s[1])
    ensures Escape(s) == [s[0], s[1]] + Escape(s[2..])
  {
  }

  lemma EscapeOne(s: Text)
    requires s != [] && !(IsHighSurrogate(s[0]) && |s| >= 2 && IsLowSurrogate(s[1]))
    ensures Escape(s) == EscapeUnit(s[0]) + Escape(s[1..])
  {
  }

  lemma Regroup(x: Text, y: Text, z: Text)
    ensures x + (y + z) == (x + y) + z
  {
  }

  lemma PairText(high: Unit, low: Unit)
    requires 0xD800 <= high < 0xDC00 <= low < 0xE000
    ensures Quote([high, low]) == [0x22, high, low, 0x22]
  {
    hide Escape;
    EscapePair([high, low]);
    NothingEscaped();
    assert [high, low][2..] == [] && [high, low] + [] == [high, low];
  }

  // ---------------------------------------------------------------- numbers

  /** The form of a number: a minus sign iff it is negative; an exponent iff it is at least
      10^21 or below 10^-6; and otherwise a point iff it is not whole, with a zero before it
      iff the number is below one. */
  lemma NumberForm(d: Digits, point: int)
    ensures var t := NumberText(false, d, point);
      && t != [] && t[0] != 0x2D && NumberText(true, d, point) == [0x2D] + t
      && (0x65 in t <==> point > 21 || point <= -6)
      && (-6 < point <= 21 ==> (0x2E in t <==> |d| > point))
      && (-6 < point <= 21 ==> (t[0] == 0x30 <==> point <= 0))
      && (-6 < point <= 21 && |d| <= point ==> |t| == point)
      && (0 < point <= 21 && |d| > point ==> |t| == |d| + 1 && t[point] == 0x2E)
      && (-6 < point <= 0 ==> |t| == |d| + 2 - point)
  {
    DigitFirst(d, point);
    var t := MagnitudeText(d, point);
    if |d| <= point <= 21 {
      DigitsOnly(d, point - |d|);
    } else if 0 < point <= 21 {
      SplitDigits(d, point);
      assert t[point] == 0x2E;
    } else if -6 < point <= 0 {
      assert t[1] == 0x2E;
      DigitsOnly(d, -point);
    } else {
      assert t[|Mantissa(d)|] == 0x65;
    }
  }

  lemma DigitsOnly(d: Digits, n: nat)
    ensures 0x65 !in d + Zeros(n) && 0x2E !in d + Zeros(n)
    ensures 0x65 !in Zeros(n) + d && 0x2E !in Zeros(n) + d
  {
    assert forall i :: 0 <= i < |d| ==> IsDigit(d[i]);
  }

  /** With an exponent: one digit, then a point and the other digits if there are any, then `e`,
      a sign that is always written, and the exponent in plain digits. */
  lemma ExponentForm(d: Digits, point: int) returns (digits: Text)
    requires point > 21 || point <= -6
    ensures NumberText(false, d, point) ==
      (if |d| == 1 then d else [d[0], 0x2E] + d[1..]) + [0x65] + ([if point >= 1 then 0x2B else 0x2D] + digits)
    ensures digits != [] && AllDigits(digits) && NatValue(digits) == if point >= 1 then point - 1 else 1 - point
  {
    hide NatValue, NatText;
    var n := if point >= 1 then point - 1 else 1 - point;
    digits := NatText(n);
    NatRoundTrip(n);
  }
}
