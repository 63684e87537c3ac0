/** `canonicalJson` and `buildCrossRepoSigningPayload` of
    src/cross-repo/cross-repo.signing.ts.

    The printer must depend only on the logical value it is given and must
    determine it.  Both directions are one equivalence here: two JavaScript
    values have the same canonical text exactly when they denote the same JSON
    value, where key order is forgotten, `undefined` and the non-finite numbers
    are `null`, and `-0` is `0`. */
module CanonicalJson {
  import opened JsonText

  // ---------------------------------------------------------------- values

  /** A JavaScript value as `canonicalJson` sees it.  `keys` is `Object.keys`. */
  datatype Js =
    | Undefined
    | Null
    | Bool(b: bool)
    | NonFinite
    | Zero(minus: bool)
    | Number(negative: bool, digits: Digits, point: int)
    | Str(text: Text)
    | Arr(items: seq<Js>)
    | Obj(keys: seq<Text>, fields: map<Text, Js>)

  /** `Object.keys` lists every own key once. */
  ghost predicate WellFormed(v: Js) {
    match v
    case Arr(items) => forall i :: 0 <= i < |items| ==> WellFormed(items[i])
    case Obj(keys, fields) =>
      && Distinct(keys)
      && (forall k :: k in keys <==> k in fields)
      && (forall k :: k in fields ==> WellFormed(fields[k]))
    case _ => true
  }

  ghost predicate Distinct(keys: seq<Text>) {
    forall i, j :: 0 <= i < j < |keys| ==> keys[i] != keys[j]
  }

  /** A JSON value: objects are finite maps, without an order. */
  datatype Json =
    | JNull
    | JBool(b: bool)
    | JZero
    | JNumber(negative: bool, digits: Digits, point: int)
    | JStr(text: Text)
    | JArr(items: seq<Json>)
    | JObj(fields: map<Text, Json>)

  /** The JSON value a JavaScript value denotes. */
  ghost function Logical(v: Js): Json {
    match v
    case Undefined => JNull
    case Null => JNull
    case Bool(b) => JBool(b)
    case NonFinite => JNull
    case Zero(_) => JZero
    case Number(negative, digits, point) => JNumber(negative, digits, point)
    case Str(text) => JStr(text)
    case Arr(items) => JArr(seq(|items|, i requires 0 <= i < |items| => Logical(items[i])))
    case Obj(_, fields) => JObj(map k | k in fields :: Logical(fields[k]))
  }

  // ---------------------------------------------------------------- sorting

  /** Code-unit order, the order of `Array.prototype.sort` on strings. */
  predicate Before(a: Text, b: Text) {
    if b == [] then false
    else if a == [] then true
    else a[0] < b[0] || (a[0] == b[0] && Before(a[1..], b[1..]))
  }

  lemma {:induction false} BeforeTotal(a: Text, b: Text)
    ensures Before(a, b) || a == b || Before(b, a)
  {
    if a != [] && b != [] && a[0] == b[0] {
      BeforeTotal(a[1..], b[1..]);
      assert a == [a[0]] + a[1..] && b == [b[0]] + b[1..];
    }
  }

  lemma {:induction false} BeforeAsymmetric(a: Text, b: Text)
    ensures !(Before(a, b) && Before(b, a))
  {
    if a != [] && b != [] {
      BeforeAsymmetric(a[1..], b[1..]);
    }
  }

  lemma {:induction false} BeforeTransitive(a: Text, b: Text, c: Text)
    requires Before(a, b) && Before(b, c)
    ensures Before(a, c)
  {
    if a != [] && a[0] == b[0] == c[0] {
      BeforeTransitive(a[1..], b[1..], c[1..]);
    }
  }

  function Insert(k: Text, sorted: seq<Text>): (r: seq<Text>)
    ensures multiset(r) == multiset{k} + multiset(sorted)
  {
    if sorted == [] || !Before(sorted[0], k) then [k] + sorted
    else
      assert sorted == [sorted[0]] + sorted[1..];
      [sorted[0]] + Insert(k, sorted[1..])
  }

  /** `keys.sort()` */
  function SortKeys(keys: seq<Text>): (r: seq<Text>)
    ensures multiset(r) == multiset(keys)
  {
    if keys == [] then []
    else
      assert keys == [keys[0]] + keys[1..];
      Insert(keys[0], SortKeys(keys[1..]))
  }

  ghost predicate Ascending(s: seq<Text>) {
    forall i, j :: 0 <= i < j < |s| ==> Before(s[i], s[j])
  }

  lemma InMultiset(s: seq<Text>, k: Text)
    ensures k in s <==> k in multiset(s)
  {
  }

  lemma {:induction false} InsertAscending(k: Text, sorted: seq<Text>)
    requires Ascending(sorted) && k !in sorted
    ensures Ascending(Insert(k, sorted))
  {
    if sorted == [] {
    } else if !Before(sorted[0], k) {
      BeforeTotal(k, sorted[0]);
      forall j | 1 <= j < |sorted| ensures Before(k, sorted[j]) {
        BeforeTransitive(k, sorted[0], sorted[j]);
      }
    } else {
      var tail := Insert(k, sorted[1..]);
      InsertAscending(k, sorted[1..]);
      forall j | 0 <= j < |tail| ensures Before(sorted[0], tail[j]) {
        InMultiset(tail, tail[j]);
        assert tail[j] == k || tail[j] in sorted[1..];
      }
    }
  }

  lemma {:induction false} SortKeysAscending(keys: seq<Text>)
    requires Distinct(keys)
    ensures Ascending(SortKeys(keys))
  {
    if keys != [] {
      SortKeysAscending(keys[1..]);
      InMultiset(SortKeys(keys[1..]), keys[0]);
      InsertAscending(keys[0], SortKeys(keys[1..]));
    }
  }

  lemma SortKeysMembers(keys: seq<Text>)
    ensures forall k :: k in SortKeys(keys) <==> k in keys
  {
    forall k ensures k in SortKeys(keys) <==> k in keys {
      InMultiset(keys, k);
      InMultiset(SortKeys(keys), k);
    }
  }

  ghost predicate SameMembers(a: seq<Text>, b: seq<Text>) {
    forall k :: k in a <==> k in b
  }

  lemma SameHead(a: seq<Text>, b: seq<Text>)
    requires Ascending(a) && Ascending(b) && SameMembers(a, b)
    requires a != [] && b != []
    ensures a[0] == b[0]
  {
    assert a[0] in b && b[0] in a;
    BeforeAsymmetric(a[0], b[0]);
  }

  lemma SameTail(a: seq<Text>, b: seq<Text>)
    requires Ascending(a) && Ascending(b) && SameMembers(a, b)
    requires a != [] && b != [] && a[0] == b[0]
    ensures Ascending(a[1..]) && Ascending(b[1..]) && SameMembers(a[1..], b[1..])
  {
    forall i | 1 <= i < |a| ensures a[i] != a[0] { BeforeAsymmetric(a[0], a[i]); }
    forall i | 1 <= i < |b| ensures b[i] != b[0] { BeforeAsymmetric(b[0], b[i]); }
    forall k ensures k in a[1..] <==> k in b[1..] {
      assert k in a <==> k == a[0] || k in a[1..];
      assert k in b <==> k == b[0] || k in b[1..];
    }
  }

  lemma EmptyTogether(a: seq<Text>, b: seq<Text>)
    requires SameMembers(a, b)
    ensures a == [] <==> b == []
  {
    assert a != [] ==> a[0] in a;
    assert b != [] ==> b[0] in b;
  }

  lemma {:induction false} AscendingUnique(a: seq<Text>, b: seq<Text>)
    requires Ascending(a) && Ascending(b) && SameMembers(a, b)
    ensures a == b
  {
    EmptyTogether(a, b);
    if a != [] {
      SameHead(a, b);
      SameTail(a, b);
      AscendingUnique(a[1..], b[1..]);
      assert a == [a[0]] + a[1..] && b == [b[0]] + b[1..];
    }
  }

  /** Sorting forgets the insertion order. */
  lemma SortKeysCanonical(a: seq<Text>, b: seq<Text>)
    requires Distinct(a) && Distinct(b) && SameMembers(a, b)
    ensures SortKeys(a) == SortKeys(b)
  {
    SortKeysAscending(a);
    SortKeysAscending(b);
    SortKeysMembers(a);
    SortKeysMembers(b);
    AscendingUnique(SortKeys(a), SortKeys(b));
  }

  // ---------------------------------------------------------------- printing

  const NULL_TEXT: Text := [0x6E, 0x75, 0x6C, 0x6C]
  const TRUE_TEXT: Text := [0x74, 0x72, 0x75, 0x65]
  const FALSE_TEXT: Text := [0x66, 0x61, 0x6C, 0x73, 0x65]
  const ZERO_TEXT: Text := [ZERO]
  const OPEN_ARRAY: Unit := 0x5B
  const CLOSE_ARRAY: Unit := 0x5D
  const OPEN_OBJECT: Unit := 0x7B
  const CLOSE_OBJECT: Unit := 0x7D

  /** `texts.join(",")` */
  function Join(texts: seq<Text>): Text {
    if texts == [] then []
    else if |texts| == 1 then texts[0]
    else texts[0] + [COMMA] + Join(texts[1..])
  }

  /** `canonicalJson(value)` */
  function Canonical(v: Js): Text
    decreases v, 1
  {
    match v
    case Undefined => NULL_TEXT
    case Null => NULL_TEXT
    case Bool(b) => if b then TRUE_TEXT else FALSE_TEXT
    case NonFinite => NULL_TEXT
    case Zero(_) => ZERO_TEXT
    case Number(negative, digits, point) => NumberText(negative, digits, point)
    case Str(text) => Quote(text)
    case Arr(items) =>
      [OPEN_ARRAY] + Join(seq(|items|, i requires 0 <= i < |items| => Canonical(items[i]))) + [CLOSE_ARRAY]
    case Obj(keys, fields) =>
      var sorted := SortKeys(keys);
      [OPEN_OBJECT] + Join(seq(|sorted|, i requires 0 <= i < |sorted| => Member(v, sorted[i]))) + [CLOSE_OBJECT]
  }

  /** One `"key":value` of an object. */
  function Member(v: Js, key: Text): Text
    requires v.Obj?
    decreases v, 0
  {
    Quote(key) + [COLON] + if key in v.fields then Canonical(v.fields[key]) else NULL_TEXT
  }

  // ---------------------------------------------------------------- reading

  /** A number at the front of `t`. */
  function ReadNumeral(t: Text): (r: Parsed<Json>)
    ensures r.Ok? ==> |r.rest| < |t|
  {
    var n := NumberLength(t);
    if n == 0 then Fail
    else
      match ReadNumber(t[..n])
      case Fail => Fail
      case Ok(Nought, _) => Ok(JZero, t[n..])
      case Ok(Numeral(negative, digits, point), _) => Ok(JNumber(negative, digits, point), t[n..])
  }

  /** Reads the JSON value at the front of `t`. */
  function ReadValue(t: Text): (r: Parsed<Json>)
    ensures r.Ok? ==> |r.rest| < |t|
    decreases |t|, 0
  {
    if t == [] then Fail
    else if NULL_TEXT <= t then Ok(JNull, t[4..])
    else if TRUE_TEXT <= t then Ok(JBool(true), t[4..])
    else if FALSE_TEXT <= t then Ok(JBool(false), t[5..])
    else if t[0] == QUOTE then
      match ReadString(t[1..])
      case Fail => Fail
      case Ok(s, rest) => Ok(JStr(s), rest)
    else if t[0] == OPEN_ARRAY then
      if |t| >= 2 && t[1] == CLOSE_ARRAY then Ok(JArr([]), t[2..])
      else
        match ReadItems(t[1..])
        case Fail => Fail
        case Ok(items, rest) => Ok(JArr(items), rest)
    else if t[0] == OPEN_OBJECT then
      if |t| >= 2 && t[1] == CLOSE_OBJECT then Ok(JObj(map[]), t[2..])
      else
        match ReadMembers(t[1..])
        case Fail => Fail
        case Ok(fields, rest) => Ok(JObj(fields), rest)
    else ReadNumeral(t)
  }

  /** Reads one or more comma-separated values and the closing bracket. */
  function ReadItems(t: Text): (r: Parsed<seq<Json>>)
    ensures r.Ok? ==> |r.rest| < |t|
    decreases |t|, 1
  {
    match ReadValue(t)
    case Fail => Fail
    case Ok(v, rest) =>
      if rest == [] then Fail
      else if rest[0] == CLOSE_ARRAY then Ok([v], rest[1..])
      else if rest[0] != COMMA then Fail
      else
        match ReadItems(rest[1..])
        case Fail => Fail
        case Ok(vs, rest') => Ok([v] + vs, rest')
  }

  /** Reads one `"key":value`. */
  function ReadMember(t: Text): (r: Parsed<(Text, Json)>)
    ensures r.Ok? ==> |r.rest| < |t|
    decreases |t|, 1
  {
    if t == [] || t[0] != QUOTE then Fail
    else
      match ReadString(t[1..])
      case Fail => Fail
      case Ok(key, rest) =>
        if rest == [] || rest[0] != COLON then Fail
        else
          match ReadValue(rest[1..])
          case Fail => Fail
          case Ok(v, rest') => Ok((key, v), rest')
  }

  /** Reads one or more comma-separated members and the closing brace. */
  function ReadMembers(t: Text): (r: Parsed<map<Text, Json>>)
    ensures r.Ok? ==> |r.rest| < |t|
    decreases |t|, 2
  {
    match ReadMember(t)
    case Fail => Fail
    case Ok(member, rest) =>
      if rest == [] then Fail
      else if rest[0] == CLOSE_OBJECT then Ok(map[member.0 := member.1], rest[1..])
      else if rest[0] != COMMA then Fail
      else
        match ReadMembers(rest[1..])
        case Fail => Fail
        case Ok(fields, rest') => Ok(map[member.0 := member.1] + fields, rest')
  }

  /** What may follow a value: nothing that could continue a number. */
  predicate Delimited(rest: Text) {
    rest == [] || !IsNumberUnit(rest[0])
  }

  ghost predicate ReadsBefore(text: Text, value: Json, rest: Text) {
    ReadValue(text + rest) == Ok(value, rest)
  }

  /** `text` reads as `value` wherever it stands. */
  ghost predicate Reads(text: Text, value: Json) {
    forall rest :: Delimited(rest) ==> ReadsBefore(text, value, rest)
  }

  lemma ReadsStart(text: Text, value: Json)
    requires Reads(text, value)
    ensures text != [] && text[0] != CLOSE_ARRAY
  {
    assert ReadsBefore(text, value, []);
    assert text + [] == text;
  }

  ghost predicate AllRead(texts: seq<Text>, values: seq<Json>) {
    |texts| == |values| && forall i :: 0 <= i < |texts| ==> Reads(texts[i], values[i])
  }

  lemma OneItem(text: Text, value: Json, rest: Text)
    requires Reads(text, value)
    ensures ReadItems(text + [CLOSE_ARRAY] + rest) == Ok([value], rest)
  {
    assert text + [CLOSE_ARRAY] + rest == text + ([CLOSE_ARRAY] + rest);
    assert ReadsBefore(text, value, [CLOSE_ARRAY] + rest);
  }

  lemma MoreItems(text: Text, value: Json, more: Text, values: seq<Json>, rest: Text)
    requires Reads(text, value)
    requires ReadItems(more) == Ok(values, rest)
    ensures ReadItems(text + [COMMA] + more) == Ok([value] + values, rest)
  {
    assert text + [COMMA] + more == text + ([COMMA] + more);
    assert ReadsBefore(text, value, [COMMA] + more);
    assert ([COMMA] + more)[1..] == more;
  }

  lemma {:induction false} ItemsRead(texts: seq<Text>, values: seq<Json>, rest: Text)
    requires AllRead(texts, values) && texts != []
    ensures ReadItems(Join(texts) + [CLOSE_ARRAY] + rest) == Ok(values, rest)
  {
    hide ReadItems, Reads;
    if |texts| == 1 {
      assert values == [values[0]];
      OneItem(texts[0], values[0], rest);
    } else {
      var more := Join(texts[1..]) + [CLOSE_ARRAY] + rest;
      ItemsRead(texts[1..], values[1..], rest);
      MoreItems(texts[0], values[0], more, values[1..], rest);
      assert Join(texts) + [CLOSE_ARRAY] + rest == texts[0] + [COMMA] + more;
      assert values == [values[0]] + values[1..];
    }
  }

  /** `text` is the member `key: value`. */
  ghost predicate MemberReads(text: Text, key: Text, value: Json) {
    exists v :: Reads(v, value) && text == Quote(key) + [COLON] + v
  }

  lemma ReadMemberBefore(text: Text, key: Text, value: Json, rest: Text)
    requires MemberReads(text, key, value) && Delimited(rest)
    ensures ReadMember(text + rest) == Ok((key, value), rest)
  {
    hide Quote, ReadString, ReadValue;
    var v :| Reads(v, value) && text == Quote(key) + [COLON] + v;
    var after := [COLON] + v + rest;
    assert text + rest == Quote(key) + after;
    QuoteRoundTrip(key, after);
    assert after[1..] == v + rest;
    assert ReadsBefore(v, value, rest);
  }

  lemma OneMember(text: Text, key: Text, value: Json, rest: Text)
    requires MemberReads(text, key, value)
    ensures ReadMembers(text + [CLOSE_OBJECT] + rest) == Ok(map[key := value], rest)
  {
    hide ReadMember, MemberReads;
    assert text + [CLOSE_OBJECT] + rest == text + ([CLOSE_OBJECT] + rest);
    ReadMemberBefore(text, key, value, [CLOSE_OBJECT] + rest);
  }

  lemma MoreMembers(text: Text, key: Text, value: Json, more: Text, fields: map<Text, Json>, rest: Text)
    requires MemberReads(text, key, value)
    requires ReadMembers(more) == Ok(fields, rest)
    ensures ReadMembers(text + [COMMA] + more) == Ok(map[key := value] + fields, rest)
  {
    hide ReadMember, MemberReads;
    assert text + [COMMA] + more == text + ([COMMA] + more);
    ReadMemberBefore(text, key, value, [COMMA] + more);
    assert ([COMMA] + more)[1..] == more;
  }

  ghost function Restrict(fields: map<Text, Json>, keys: seq<Text>): map<Text, Json>
    requires forall k :: k in keys ==> k in fields
  {
    map k | k in fields && k in keys :: fields[k]
  }

  ghost predicate AllMembersRead(texts: seq<Text>, keys: seq<Text>, fields: map<Text, Json>) {
    && |texts| == |keys|
    && (forall k :: k in keys ==> k in fields)
    && (forall i :: 0 <= i < |texts| ==> MemberReads(texts[i], keys[i], fields[keys[i]]))
  }

  lemma {:induction false} MembersRead(texts: seq<Text>, keys: seq<Text>, fields: map<Text, Json>, rest: Text)
    requires AllMembersRead(texts, keys, fields) && texts != []
    ensures ReadMembers(Join(texts) + [CLOSE_OBJECT] + rest) == Ok(Restrict(fields, keys), rest)
  {
    hide ReadMembers, MemberReads;
    if |texts| == 1 {
      OneMember(texts[0], keys[0], fields[keys[0]], rest);
      assert Restrict(fields, keys) == map[keys[0] := fields[keys[0]]];
    } else {
      var more := Join(texts[1..]) + [CLOSE_OBJECT] + rest;
      MembersRead(texts[1..], keys[1..], fields, rest);
      MoreMembers(texts[0], keys[0], fields[keys[0]], more, Restrict(fields, keys[1..]), rest);
      assert Join(texts) + [CLOSE_OBJECT] + rest == texts[0] + [COMMA] + more;
      RestrictStep(fields, keys);
    }
  }

  lemma RestrictStep(fields: map<Text, Json>, keys: seq<Text>)
    requires keys != [] && forall k :: k in keys ==> k in fields
    ensures map[keys[0] := fields[keys[0]]] + Restrict(fields, keys[1..]) == Restrict(fields, keys)
  {
    assert forall k :: k in keys <==> k == keys[0] || k in keys[1..];
  }

  // ---------------------------------------------------------------- round trip

  lemma WordReads(word: Text, value: Json)
    requires (word == NULL_TEXT && value == JNull)
          || (word == TRUE_TEXT && value == JBool(true))
          || (word == FALSE_TEXT && value == JBool(false))
    ensures Reads(word, value)
  {
    forall rest | Delimited(rest) ensures ReadsBefore(word, value, rest) {
      assert (word + rest)[|word|..] == rest;
      assert word <= word + rest && (word + rest)[0] == word[0];
      assert NULL_TEXT[0] != TRUE_TEXT[0] && NULL_TEXT[0] != FALSE_TEXT[0] && TRUE_TEXT[0] != FALSE_TEXT[0];
    }
  }

  lemma StringReads(text: Text)
    ensures Reads(Quote(text), JStr(text))
  {
    hide ReadString;
    forall rest | Delimited(rest) ensures ReadsBefore(Quote(text), JStr(text), rest) {
      QuoteRoundTrip(text, rest);
    }
  }

  lemma NumeralText(t: Text, rest: Text)
    requires t != [] && AllNumberUnits(t) && Delimited(rest)
    ensures ReadValue(t + rest) == ReadNumeral(t + rest)
    ensures NumberLength(t + rest) == |t| && (t + rest)[..|t|] == t && (t + rest)[|t|..] == rest
  {
    NumberLengthStops(t, rest);
    assert (t + rest)[0] == t[0] && IsNumberUnit(t[0]);
  }

  lemma ZeroReads()
    ensures Reads(ZERO_TEXT, JZero)
  {
    forall rest | Delimited(rest) ensures ReadsBefore(ZERO_TEXT, JZero, rest) {
      NumeralText(ZERO_TEXT, rest);
      assert ReadNumber(ZERO_TEXT) == Ok(Nought, []) by {
        FindFirst(ZERO_TEXT, EXPONENT, []);
        FindFirst(ZERO_TEXT, DOT, []);
        assert ZERO_TEXT + [] == ZERO_TEXT && ZERO_TEXT[..1] + [] == ZERO_TEXT;
        LeadingZerosOf(1, []);
        assert Zeros(1) + [] == ZERO_TEXT;
      }
    }
  }

  lemma NumberReads(negative: bool, digits: Digits, point: int)
    ensures Reads(NumberText(negative, digits, point), JNumber(negative, digits, point))
  {
    hide ReadValue, NumberText, ReadNumber, NumberLength;
    var t := NumberText(negative, digits, point);
    NumberRoundTrip(negative, digits, point);
    forall rest | Delimited(rest) ensures ReadsBefore(t, JNumber(negative, digits, point), rest) {
      NumeralText(t, rest);
    }
  }

  lemma ArrayReads(texts: seq<Text>, values: seq<Json>)
    requires AllRead(texts, values)
    ensures Reads([OPEN_ARRAY] + Join(texts) + [CLOSE_ARRAY], JArr(values))
  {
    hide Reads;
    var t := [OPEN_ARRAY] + Join(texts) + [CLOSE_ARRAY];
    forall rest | Delimited(rest) ensures ReadsBefore(t, JArr(values), rest) {
      var inner := Join(texts) + [CLOSE_ARRAY] + rest;
      assert t + rest == [OPEN_ARRAY] + inner;
      assert (t + rest)[1..] == inner;
      if texts == [] {
        assert values == [];
        assert inner[1..] == rest && (t + rest)[2..] == rest;
      } else {
        ReadsStart(texts[0], values[0]);
        assert (t + rest)[1] == inner[0] == texts[0][0];
        ItemsRead(texts, values, rest);
      }
    }
    ReadsIntro(t, JArr(values));
  }

  lemma ReadsIntro(text: Text, value: Json)
    requires forall rest :: Delimited(rest) ==> ReadsBefore(text, value, rest)
    ensures Reads(text, value)
  {
  }

  lemma MemberStart(text: Text, key: Text, value: Json)
    requires MemberReads(text, key, value)
    ensures text != [] && text[0] == QUOTE
  {
  }

  lemma ObjectReads(texts: seq<Text>, keys: seq<Text>, fields: map<Text, Json>)
    requires AllMembersRead(texts, keys, fields)
    ensures Reads([OPEN_OBJECT] + Join(texts) + [CLOSE_OBJECT], JObj(Restrict(fields, keys)))
  {
    hide Reads, MemberReads;
    var t := [OPEN_OBJECT] + Join(texts) + [CLOSE_OBJECT];
    var value := JObj(Restrict(fields, keys));
    forall rest | Delimited(rest) ensures ReadsBefore(t, value, rest) {
      var inner := Join(texts) + [CLOSE_OBJECT] + rest;
      assert t + rest == [OPEN_OBJECT] + inner;
      assert (t + rest)[1..] == inner;
      if texts == [] {
        assert inner[1..] == rest && (t + rest)[2..] == rest;
        assert Restrict(fields, keys) == map[];
      } else {
        MemberStart(texts[0], keys[0], fields[keys[0]]);
        assert inner[0] == texts[0][0];
        MembersRead(texts, keys, fields, rest);
      }
    }
    ReadsIntro(t, value);
  }

  /** The parser recovers the JSON value from the canonical text, wherever the text stands. */
  lemma {:induction false} CanonicalRoundTrip(v: Js)
    requires WellFormed(v)
    ensures Reads(Canonical(v), Logical(v))
    decreases v
  {
    hide Reads, Quote, NumberText;
    match v
    case Undefined => WordReads(NULL_TEXT, JNull);
    case Null => WordReads(NULL_TEXT, JNull);
    case Bool(b) => WordReads(if b then TRUE_TEXT else FALSE_TEXT, JBool(b));
    case NonFinite => WordReads(NULL_TEXT, JNull);
    case Zero(_) => ZeroReads();
    case Number(negative, digits, point) => NumberReads(negative, digits, point);
    case Str(text) => StringReads(text);
    case Arr(items) =>
      var texts := seq(|items|, i requires 0 <= i < |items| => Canonical(items[i]));
      var values := seq(|items|, i requires 0 <= i < |items| => Logical(items[i]));
      forall i | 0 <= i < |items| ensures Reads(texts[i], values[i]) {
        CanonicalRoundTrip(items[i]);
      }
      ArrayReads(texts, values);
    case Obj(keys, fields) => ObjectRoundTrip(v);
  }

  lemma {:induction false} ObjectRoundTrip(v: Js)
    requires WellFormed(v) && v.Obj?
    ensures Reads(Canonical(v), Logical(v))
    decreases v, 0, 1
  {
    hide Reads, Quote, MemberReads, Member, SortKeys, Distinct;
    var sorted := SortKeys(v.keys);
    var texts := seq(|sorted|, i requires 0 <= i < |sorted| => Member(v, sorted[i]));
    var fields: map<Text, Json> := map k | k in v.fields :: Logical(v.fields[k]);
    SortKeysMembers(v.keys);
    forall i | 0 <= i < |sorted| ensures MemberReads(texts[i], sorted[i], fields[sorted[i]]) {
      assert sorted[i] in sorted;
      MemberRoundTrip(v, sorted[i]);
    }
    ObjectReads(texts, sorted, fields);
    assert Restrict(fields, sorted) == fields;
  }

  lemma {:induction false} MemberRoundTrip(v: Js, key: Text)
    requires WellFormed(v) && v.Obj? && key in v.fields
    ensures MemberReads(Member(v, key), key, Logical(v.fields[key]))
    decreases v, 0, 0
  {
    hide Reads, Quote, Distinct;
    CanonicalRoundTrip(v.fields[key]);
    assert Member(v, key) == Quote(key) + [COLON] + Canonical(v.fields[key]);
  }

  /** Values that denote the same JSON value print the same: key order is invisible. */
  lemma {:induction false} SameValueSameText(v: Js, w: Js)
    requires WellFormed(v) && WellFormed(w)
    requires Logical(v) == Logical(w)
    ensures Canonical(v) == Canonical(w)
    decreases v, 1
  {
    hide Quote, NumberText, SortKeys;
    match v
    case Arr(items) =>
      assert w.Arr? && |w.items| == |items|;
      forall i | 0 <= i < |items| ensures Canonical(items[i]) == Canonical(w.items[i]) {
        assert Logical(v).items[i] == Logical(w).items[i];
        SameValueSameText(items[i], w.items[i]);
      }
      assert seq(|items|, i requires 0 <= i < |items| => Canonical(items[i]))
          == seq(|w.items|, i requires 0 <= i < |w.items| => Canonical(w.items[i]));
    case Obj(_, _) => SameObjectSameText(v, w);
    case _ =>
  }

  lemma {:induction false} SameObjectSameText(v: Js, w: Js)
    requires WellFormed(v) && WellFormed(w) && v.Obj?
    requires Logical(v) == Logical(w)
    ensures Canonical(v) == Canonical(w)
    decreases v, 0, 1
  {
    hide Quote, Member, SortKeys, Distinct;
    assert w.Obj?;
    var a, b := Logical(v).fields, Logical(w).fields;
    forall k ensures k in v.keys <==> k in w.keys {
      assert k in a <==> k in b;
    }
    SortKeysCanonical(v.keys, w.keys);
    var sorted := SortKeys(v.keys);
    forall i | 0 <= i < |sorted| ensures Member(v, sorted[i]) == Member(w, sorted[i]) {
      SameMemberSameText(v, w, sorted[i]);
    }
    assert seq(|sorted|, i requires 0 <= i < |sorted| => Member(v, sorted[i]))
        == seq(|sorted|, i requires 0 <= i < |sorted| => Member(w, sorted[i]));
  }

  lemma {:induction false} SameMemberSameText(v: Js, w: Js, k: Text)
    requires WellFormed(v) && WellFormed(w) && v.Obj? && w.Obj?
    requires Logical(v) == Logical(w)
    ensures Member(v, k) == Member(w, k)
    decreases v, 0, 0
  {
    hide Quote, Distinct;
    var a, b := Logical(v).fields, Logical(w).fields;
    assert k in a <==> k in b;
    if k in v.fields {
      assert a[k] == b[k];
      SameValueSameText(v.fields[k], w.fields[k]);
    }
  }

  /** The text and the JSON value determine each other. */
  lemma CanonicalExact(v: Js, w: Js)
    requires WellFormed(v) && WellFormed(w)
    ensures Canonical(v) == Canonical(w) <==> Logical(v) == Logical(w)
  {
    hide Canonical, Logical, ReadValue;
    if Logical(v) == Logical(w) {
      SameValueSameText(v, w);
    } else {
      CanonicalRoundTrip(v);
      CanonicalRoundTrip(w);
      assert ReadsBefore(Canonical(v), Logical(v), []) && ReadsBefore(Canonical(w), Logical(w), []);
    }
  }

  lemma {:induction false} JoinPrintable(texts: seq<Text>)
    requires forall i :: 0 <= i < |texts| ==> Printable(texts[i])
    ensures Printable(Join(texts))
  {
    if |texts| > 1 {
      JoinPrintable(texts[1..]);
    }
  }

  /** Canonical text holds no control character, hence no newline. */
  lemma {:induction false} CanonicalPrintable(v: Js)
    ensures Printable(Canonical(v))
    decreases v, 1
  {
    hide Quote, NumberText, SortKeys;
    match v
    case Number(negative, digits, point) => NumberRoundTrip(negative, digits, point);
    case Str(text) => QuotePrintable(text);
    case Arr(items) =>
      var texts := seq(|items|, i requires 0 <= i < |items| => Canonical(items[i]));
      forall i | 0 <= i < |items| ensures Printable(texts[i]) {
        CanonicalPrintable(items[i]);
      }
      JoinPrintable(texts);
    case Obj(keys, _) =>
      var sorted := SortKeys(keys);
      var texts := seq(|sorted|, i requires 0 <= i < |sorted| => Member(v, sorted[i]));
      forall i | 0 <= i < |sorted| ensures Printable(texts[i]) {
        MemberPrintable(v, sorted[i]);
      }
      JoinPrintable(texts);
    case _ =>
  }

  lemma {:induction false} MemberPrintable(v: Js, key: Text)
    requires v.Obj?
    ensures Printable(Member(v, key))
    decreases v, 0
  {
    hide Quote;
    QuotePrintable(key);
    if key in v.fields {
      CanonicalPrintable(v.fields[key]);
    }
  }
}
