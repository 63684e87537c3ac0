/** The bounded log sanitiser of src/logging/sanitize.util.ts.

    Values live in an object graph that may share nodes and may be cyclic; the output is a tree.
    The pattern-based redaction of secret-looking text is a parameter: whatever it does, the
    facts below hold. */
module LogSanitizer {
  import opened Characters

  const MAX_DEPTH := 8
  const MAX_ARRAY_LENGTH := 50
  const MAX_OBJECT_KEYS := 100
  const MAX_STRING_LENGTH := 4096
  const REDACTED := "[REDACTED]"
  const TRUNCATED_KEYS_FIELD := "[TRUNCATED_KEYS]"

  // ---------------------------------------------------------------- values

  datatype Value =
    | Null | Undefined
    | Bool(b: bool) | Number(n: real) | Date(ms: int)
    | Text(text: string)
    | Ref(id: nat)

  datatype Property = Property(key: string, value: Value)
  datatype Node = ArrayNode(items: seq<Value>) | ObjectNode(properties: seq<Property>)
  type Heap = map<nat, Node>

  datatype Field = Field(key: string, out: Out)
  datatype Out =
    | ONull | OUndefined
    | OBool(b: bool) | ONumber(n: real) | ODate(ms: int)
    | OText(text: string)
    | OCount(dropped: nat)
    | OArray(items: seq<Out>)
    | OObject(fields: seq<Field>)

  // ---------------------------------------------------------------- sensitive keys

  const SENSITIVE_FIELDS := {
    "password", "passwordconfirm", "oldpassword", "newpassword", "currentpassword", "confirmpassword",
    "token", "accesstoken", "refreshtoken", "idtoken", "authtoken", "sessiontoken", "bearertoken",
    "secret", "apikey", "api_key", "clientsecret", "client_secret", "clientid",
    "ssn", "socialsecuritynumber", "creditcard", "cardnumber", "cvv", "cvc", "pin", "dateofbirth", "dob",
    "privatekey", "private_key", "mnemonic", "seed", "seedphrase", "walletpassphrase", "keystorepassword",
    "databasepassword", "db_password", "smtppassword", "smtp_password", "redispassword", "redis_password"}

  /** `key.toLowerCase().replace(/[-_\s]/g, "")` on ASCII letters. */
  function Normal(key: string): string {
    if key == [] then []
    else
      var c := if 'A' <= key[0] <= 'Z' then (key[0] as int + 32) as char else key[0];
      (if c == '-' || c == '_' || IsSpace(c) then [] else [c]) + Normal(key[1..])
  }

  predicate Sensitive(key: string, extra: set<string>) {
    Normal(key) in SENSITIVE_FIELDS || Normal(key) in extra
  }

  // ---------------------------------------------------------------- text

  type Redactor = string -> string

  function Decimal(n: nat): string {
    if n < 10 then [('0' as int + n) as char] else Decimal(n / 10) + [('0' as int + n % 10) as char]
  }

  function Marker(n: nat): string {
    "...[TRUNCATED " + Decimal(n) + " chars]"
  }

  /** `head.search(/\s\S*$/)`: the last white space, or -1. */
  function LastBreak(head: string): (k: int)
    ensures -1 <= k < |head|
    ensures k >= 0 ==> IsSpace(head[k])
    ensures forall i :: k < i < |head| ==> !IsSpace(head[i])
  {
    if head == [] then -1
    else if IsSpace(head[|head| - 1]) then |head| - 1
    else LastBreak(head[..|head| - 1])
  }

  function Take(s: string, n: nat): (r: string)
    ensures |r| <= n && r <= s
  {
    if |s| <= n then s else s[..n]
  }

  /** The part of an over-long text that is scanned and kept. */
  function KeptPart(text: string, limit: nat): string
    requires limit < |text|
  {
    var b := LastBreak(text[..limit]);
    if b > 0 then text[..b] else REDACTED
  }

  /** `redactBounded(text, limit, redact)` */
  function RedactBounded(text: string, limit: nat, redact: Redactor): string {
    if |text| <= limit then
      var out := redact(text);
      if |out| <= limit then out else out[..limit] + Marker(|out| - limit)
    else
      var b := LastBreak(text[..limit]);
      Take(redact(KeptPart(text, limit)), limit) + Marker(|text| - (if b > 0 then b else 0))
  }

  // ---------------------------------------------------------------- values and objects

  /** `out[key] = value` on the list of own properties. */
  function Put(fields: seq<Field>, key: string, out: Out): seq<Field> {
    if fields == [] then [Field(key, out)]
    else if fields[0].key == key then [Field(key, out)] + fields[1..]
    else [fields[0]] + Put(fields[1..], key, out)
  }

  /** The output for one property of an object at `depth`. */
  function SanitizeProperty(h: Heap, p: Property, depth: nat, extra: set<string>, redact: Redactor): Field
    requires depth <= MAX_DEPTH
    decreases MAX_DEPTH + 1 - depth, 0
  {
    Field(p.key, if Sensitive(p.key, extra) then OText(REDACTED)
                 else SanitizeValue(h, p.value, depth + 1, extra, redact))
  }

  /** `sanitizeObject(obj, depth, extra)` */
  function SanitizeObject(h: Heap, ps: seq<Property>, depth: nat, extra: set<string>, redact: Redactor): seq<Field>
    requires depth <= MAX_DEPTH
    decreases MAX_DEPTH + 1 - depth, 1
  {
    if |ps| <= MAX_OBJECT_KEYS then
      seq(|ps|, i requires 0 <= i < |ps| => SanitizeProperty(h, ps[i], depth, extra, redact))
    else
      Put(seq(MAX_OBJECT_KEYS, i requires 0 <= i < MAX_OBJECT_KEYS => SanitizeProperty(h, ps[i], depth, extra, redact)),
          TRUNCATED_KEYS_FIELD, OCount(|ps| - MAX_OBJECT_KEYS))
  }

  /** `value.slice(0, MAX_ARRAY_LENGTH).length` */
  function ArrayTake(items: seq<Value>): (n: nat)
    ensures n <= |items| && n <= MAX_ARRAY_LENGTH
  {
    if |items| <= MAX_ARRAY_LENGTH then |items| else MAX_ARRAY_LENGTH
  }

  /** `sanitizeValue(value, depth, extra)`: the depth bound makes it end on every graph. */
  function SanitizeValue(h: Heap, v: Value, depth: nat, extra: set<string>, redact: Redactor): Out
    decreases MAX_DEPTH + 1 - depth, 2
  {
    if v.Null? then ONull
    else if v.Undefined? then OUndefined
    else if depth > MAX_DEPTH then OText("[MAX_DEPTH]")
    else
      match v
      case Ref(id) =>
        if id !in h then OUndefined
        else
          (match h[id]
           case ArrayNode(items) =>
             OArray(seq(ArrayTake(items), i requires 0 <= i < ArrayTake(items) =>
               SanitizeValue(h, items[i], depth + 1, extra, redact)))
           case ObjectNode(ps) => OObject(SanitizeObject(h, ps, depth, extra, redact)))
      case Text(text) => OText(RedactBounded(text, MAX_STRING_LENGTH, redact))
      case Bool(b) => OBool(b)
      case Number(n) => ONumber(n)
      case Date(ms) => ODate(ms)
      case _ => ONull
  }

  /** The loop of `sanitizeObject`, with its `kept` and `dropped` counters. */
  method SanitizeObjectLoop(h: Heap, ps: seq<Property>, depth: nat, extra: set<string>, redact: Redactor)
    returns (out: seq<Field>)
    requires depth <= MAX_DEPTH
    requires forall i, j :: 0 <= i < j < |ps| ==> ps[i].key != ps[j].key
    ensures out == SanitizeObject(h, ps, depth, extra, redact)
  {
    hide SanitizeValue, Sensitive;
    out := [];
    var kept, dropped := 0, 0;
    for n := 0 to |ps|
      invariant kept == |out| && kept + dropped == n
      invariant kept == if n <= MAX_OBJECT_KEYS then n else MAX_OBJECT_KEYS
      invariant forall i :: 0 <= i < |out| ==> out[i] == SanitizeProperty(h, ps[i], depth, extra, redact)
    {
      if kept >= MAX_OBJECT_KEYS {
        dropped := dropped + 1;
        continue;
      }
      kept := kept + 1;
      var key := ps[n].key;
      var value :=
        if Sensitive(key, extra) then OText(REDACTED)
        else SanitizeValue(h, ps[n].value, depth + 1, extra, redact);
      PutNew(out, key, value);
      out := Put(out, key, value);
    }
    ghost var m := kept;
    assert out == seq(m, i requires 0 <= i < m => SanitizeProperty(h, ps[i], depth, extra, redact));
    if dropped > 0 {
      out := Put(out, TRUNCATED_KEYS_FIELD, OCount(dropped));
    }
  }

  lemma {:induction false} PutNew(fields: seq<Field>, key: string, out: Out)
    requires forall i :: 0 <= i < |fields| ==> fields[i].key != key
    ensures Put(fields, key, out) == fields + [Field(key, out)]
  {
    if fields != [] {
      PutNew(fields[1..], key, out);
      assert fields == [fields[0]] + fields[1..];
    }
  }

  lemma {:induction false} PutExact(fields: seq<Field>, key: string, out: Out)
    ensures |fields| <= |Put(fields, key, out)| <= |fields| + 1
    ensures forall i :: 0 <= i < |Put(fields, key, out)| ==>
      Put(fields, key, out)[i] == Field(key, out) || (i < |fields| && Put(fields, key, out)[i] == fields[i])
  {
    if fields != [] && fields[0].key != key {
      PutExact(fields[1..], key, out);
    }
  }

  // ---------------------------------------------------------------- secrets do not leak

  /** Two nodes that differ at most in what stands under sensitive keys. */
  ghost predicate SameButSecrets(a: Node, b: Node, extra: set<string>) {
    match (a, b)
    case (ArrayNode(x), ArrayNode(y)) => x == y
    case (ObjectNode(x), ObjectNode(y)) =>
      && |x| == |y|
      && (forall i :: 0 <= i < |x| ==>
            x[i].key == y[i].key && (!Sensitive(x[i].key, extra) ==> x[i].value == y[i].value))
    case _ => false
  }

  ghost predicate SameHeapButSecrets(h: Heap, g: Heap, extra: set<string>) {
    h.Keys == g.Keys && forall id :: id in h ==> SameButSecrets(h[id], g[id], extra)
  }

  lemma {:induction false} ObjectHidesSecrets(
    h: Heap, g: Heap, x: seq<Property>, y: seq<Property>, depth: nat, extra: set<string>, redact: Redactor)
    requires SameHeapButSecrets(h, g, extra) && SameButSecrets(ObjectNode(x), ObjectNode(y), extra)
    requires depth <= MAX_DEPTH
    ensures SanitizeObject(h, x, depth, extra, redact) == SanitizeObject(g, y, depth, extra, redact)
    decreases MAX_DEPTH + 1 - depth, 1
  {
    hide SameHeapButSecrets, Sensitive, Put;
    forall i | 0 <= i < |x|
      ensures SanitizeProperty(h, x[i], depth, extra, redact) == SanitizeProperty(g, y[i], depth, extra, redact)
    {
      if !Sensitive(x[i].key, extra) {
        HidesSecrets(h, g, x[i].value, depth + 1, extra, redact);
      }
    }
    var n := if |x| <= MAX_OBJECT_KEYS then |x| else MAX_OBJECT_KEYS;
    assert seq(n, i requires 0 <= i < n => SanitizeProperty(h, x[i], depth, extra, redact))
        == seq(n, i requires 0 <= i < n => SanitizeProperty(g, y[i], depth, extra, redact));
  }

  /** Non-interference: on every graph, cyclic or not, the output does not depend on anything
      stored under a sensitive key, at any depth. */
  lemma {:induction false} HidesSecrets(h: Heap, g: Heap, v: Value, depth: nat, extra: set<string>, redact: Redactor)
    requires SameHeapButSecrets(h, g, extra)
    ensures SanitizeValue(h, v, depth, extra, redact) == SanitizeValue(g, v, depth, extra, redact)
    decreases MAX_DEPTH + 1 - depth, 2
  {
    hide SanitizeObject, RedactBounded;
    if v.Ref? && v.id in h && depth <= MAX_DEPTH {
      assert SameButSecrets(h[v.id], g[v.id], extra);
      match h[v.id]
      case ArrayNode(items) =>
        forall i | 0 <= i < ArrayTake(items)
          ensures SanitizeValue(h, items[i], depth + 1, extra, redact)
               == SanitizeValue(g, items[i], depth + 1, extra, redact)
        {
          HidesSecrets(h, g, items[i], depth + 1, extra, redact);
        }
      case ObjectNode(ps) => ObjectHidesSecrets(h, g, ps, g[v.id].properties, depth, extra, redact);
    }
  }

  /** Under a sensitive key stands the redaction mark, or the count of dropped keys. */
  ghost predicate Clean(o: Out, extra: set<string>) {
    match o
    case OArray(items) => forall i :: 0 <= i < |items| ==> Clean(items[i], extra)
    case OObject(fields) => forall i :: 0 <= i < |fields| ==> CleanField(fields[i], extra)
    case _ => true
  }

  ghost predicate CleanField(f: Field, extra: set<string>) {
    && Clean(f.out, extra)
    && (Sensitive(f.key, extra) ==> f.out == OText(REDACTED) || (f.key == TRUNCATED_KEYS_FIELD && f.out.OCount?))
  }

  lemma {:induction false} ObjectIsClean(h: Heap, ps: seq<Property>, depth: nat, extra: set<string>, redact: Redactor)
    requires depth <= MAX_DEPTH
    ensures forall i :: 0 <= i < |SanitizeObject(h, ps, depth, extra, redact)| ==>
      CleanField(SanitizeObject(h, ps, depth, extra, redact)[i], extra)
    decreases MAX_DEPTH + 1 - depth, 1
  {
    hide Sensitive, Put, SanitizeValue;
    forall i | 0 <= i < |ps| ensures CleanField(SanitizeProperty(h, ps[i], depth, extra, redact), extra) {
      if !Sensitive(ps[i].key, extra) {
        OutputIsClean(h, ps[i].value, depth + 1, extra, redact);
      }
    }
    if |ps| > MAX_OBJECT_KEYS {
      var fields := seq(MAX_OBJECT_KEYS,
        i requires 0 <= i < MAX_OBJECT_KEYS => SanitizeProperty(h, ps[i], depth, extra, redact));
      PutExact(fields, TRUNCATED_KEYS_FIELD, OCount(|ps| - MAX_OBJECT_KEYS));
    }
  }

  /** No value under a sensitive key survives at any depth of the output. */
  lemma {:induction false} OutputIsClean(h: Heap, v: Value, depth: nat, extra: set<string>, redact: Redactor)
    ensures Clean(SanitizeValue(h, v, depth, extra, redact), extra)
    decreases MAX_DEPTH + 1 - depth, 2
  {
    hide SanitizeObject, RedactBounded, CleanField;
    if v.Ref? && v.id in h && depth <= MAX_DEPTH {
      match h[v.id]
      case ArrayNode(items) =>
        forall i | 0 <= i < ArrayTake(items)
          ensures Clean(SanitizeValue(h, items[i], depth + 1, extra, redact), extra)
        {
          OutputIsClean(h, items[i], depth + 1, extra, redact);
        }
      case ObjectNode(ps) => ObjectIsClean(h, ps, depth, extra, redact);
    }
  }

  // ---------------------------------------------------------------- size

  /** The number of nodes of an output tree. */
  ghost function Size(o: Out): nat {
    match o
    case OArray(items) => 1 + SumItems(items)
    case OObject(fields) => 1 + SumFields(fields)
    case _ => 1
  }

  ghost function SumItems(items: seq<Out>): nat {
    if items == [] then 0 else Size(items[0]) + SumItems(items[1..])
  }

  ghost function SumFields(fields: seq<Field>): nat {
    if fields == [] then 0 else Size(fields[0].out) + SumFields(fields[1..])
  }

  lemma {:induction false} SumItemsBound(items: seq<Out>, b: nat)
    requires forall i :: 0 <= i < |items| ==> Size(items[i]) <= b
    ensures SumItems(items) <= |items| * b
  {
    if items != [] {
      SumItemsBound(items[1..], b);
      assert |items| * b == b + (|items| - 1) * b;
    }
  }

  lemma {:induction false} SumFieldsBound(fields: seq<Field>, b: nat)
    requires forall i :: 0 <= i < |fields| ==> Size(fields[i].out) <= b
    ensures SumFields(fields) <= |fields| * b
  {
    if fields != [] {
      SumFieldsBound(fields[1..], b);
      assert |fields| * b == b + (|fields| - 1) * b;
    }
  }

  lemma {:induction false} PutSum(fields: seq<Field>, key: string, out: Out)
    ensures SumFields(Put(fields, key, out)) <= SumFields(fields) + Size(out)
  {
    if fields == [] {
      assert Put(fields, key, out)[1..] == [];
    } else if fields[0].key == key {
      assert Put(fields, key, out)[1..] == fields[1..];
    } else {
      PutSum(fields[1..], key, out);
      assert Put(fields, key, out)[1..] == Put(fields[1..], key, out);
    }
  }

  function Pow100(n: nat): nat {
    if n == 0 then 1 else 100 * Pow100(n - 1)
  }

  /** The most nodes a value met at `depth` can turn into. */
  function SizeBound(depth: nat): (b: nat)
    requires depth <= MAX_DEPTH + 1
    ensures b >= 1
    decreases MAX_DEPTH + 1 - depth
  {
    if depth == MAX_DEPTH + 1 then 1 else 2 + 100 * SizeBound(depth + 1)
  }

  lemma SizeBoundStep(depth: nat)
    requires depth <= MAX_DEPTH
    ensures SizeBound(depth) == 2 + 100 * SizeBound(depth + 1)
  {
  }

  lemma AtMostHundred(n: nat, b: nat)
    requires n <= 100
    ensures n * b <= 100 * b
  {
  }

  /** The bound in closed form; at the root it is (101 * 100^9 - 2) / 99. */
  lemma {:induction false} SizeBoundClosed(depth: nat)
    requires depth <= MAX_DEPTH + 1
    ensures 99 * SizeBound(depth) == 101 * Pow100(MAX_DEPTH + 1 - depth) - 2
    decreases MAX_DEPTH + 1 - depth
  {
    if depth <= MAX_DEPTH {
      SizeBoundClosed(depth + 1);
    }
  }

  lemma {:induction false} ObjectSize(h: Heap, ps: seq<Property>, depth: nat, extra: set<string>, redact: Redactor)
    requires depth <= MAX_DEPTH
    ensures SumFields(SanitizeObject(h, ps, depth, extra, redact)) <= 1 + 100 * SizeBound(depth + 1)
    decreases MAX_DEPTH + 1 - depth, 1
  {
    hide Sensitive, Put, SanitizeValue, SizeBound;
    var b := SizeBound(depth + 1);
    var n := if |ps| <= MAX_OBJECT_KEYS then |ps| else MAX_OBJECT_KEYS;
    var fields := seq(n, i requires 0 <= i < n => SanitizeProperty(h, ps[i], depth, extra, redact));
    forall i | 0 <= i < n ensures Size(fields[i].out) <= b {
      if !Sensitive(ps[i].key, extra) {
        OutputSize(h, ps[i].value, depth + 1, extra, redact);
      }
    }
    SumFieldsBound(fields, b);
    AtMostHundred(n, b);
    if |ps| > MAX_OBJECT_KEYS {
      PutSum(fields, TRUNCATED_KEYS_FIELD, OCount(|ps| - MAX_OBJECT_KEYS));
    }
  }

  /** The output has at most `SizeBound(depth)` nodes, whatever the input. */
  lemma {:induction false} OutputSize(h: Heap, v: Value, depth: nat, extra: set<string>, redact: Redactor)
    requires depth <= MAX_DEPTH + 1
    ensures Size(SanitizeValue(h, v, depth, extra, redact)) <= SizeBound(depth)
    decreases MAX_DEPTH + 1 - depth, 2
  {
    hide SanitizeObject, RedactBounded, SizeBound;
    if v.Ref? && v.id in h && depth <= MAX_DEPTH {
      SizeBoundStep(depth);
      match h[v.id]
      case ArrayNode(items) =>
        var n := ArrayTake(items);
        var outs := seq(n, i requires 0 <= i < n => SanitizeValue(h, items[i], depth + 1, extra, redact));
        var b := SizeBound(depth + 1);
        forall i | 0 <= i < n ensures Size(outs[i]) <= b {
          OutputSize(h, items[i], depth + 1, extra, redact);
        }
        SumItemsBound(outs, b);
        AtMostHundred(n, b);
        assert SanitizeValue(h, v, depth, extra, redact) == OArray(outs);
      case ObjectNode(ps) => ObjectSize(h, ps, depth, extra, redact);
    }
  }

  // ---------------------------------------------------------------- text

  /** At most `limit` characters of content, perhaps followed by the truncation mark. */
  ghost predicate BoundedText(s: string, limit: nat) {
    |s| <= limit || exists k, n :: MarkedAt(s, limit, k, n)
  }

  ghost predicate MarkedAt(s: string, limit: nat, k: nat, n: nat) {
    k <= limit && k <= |s| && s == s[..k] + Marker(n)
  }

  /** Whatever `redact` does, the kept text is bounded. */
  lemma RedactBoundedIsBounded(text: string, limit: nat, redact: Redactor)
    ensures BoundedText(RedactBounded(text, limit, redact), limit)
  {
    hide Marker, LastBreak;
    var s := RedactBounded(text, limit, redact);
    if |text| <= limit {
      var out := redact(text);
      if |out| > limit {
        assert s[..limit] == out[..limit];
        assert MarkedAt(s, limit, limit, |out| - limit);
      }
    } else {
      var b := LastBreak(text[..limit]);
      var kept := Take(redact(KeptPart(text, limit)), limit);
      var n := |text| - (if b > 0 then b else 0);
      assert s[..|kept|] == kept;
      assert MarkedAt(s, limit, |kept|, n);
    }
  }

  /** A token that straddles the cut leaves no trace: what is scanned ends right before white
      space of the text, and the output depends only on that part and on the length. */
  lemma CutTokenHidden(t: string, u: string, limit: nat, redact: Redactor)
    requires limit < |t| && |t| == |u|
    requires var b := LastBreak(t[..limit]); LastBreak(u[..limit]) == b && (b > 0 ==> t[..b] == u[..b])
    ensures RedactBounded(t, limit, redact) == RedactBounded(u, limit, redact)
    ensures var b := LastBreak(t[..limit]); b > 0 ==> KeptPart(t, limit) == t[..b] && IsSpace(t[b])
    ensures var b := LastBreak(t[..limit]); b <= 0 ==> KeptPart(t, limit) == REDACTED
  {
    hide LastBreak, Marker;
    var b := LastBreak(t[..limit]);
    if b > 0 {
      assert t[..limit][b] == t[b];
    }
    assert KeptPart(t, limit) == KeptPart(u, limit);
  }

  // ---------------------------------------------------------------- keys

  ghost function KeySet(fields: seq<Field>): set<string> {
    set i | 0 <= i < |fields| :: fields[i].key
  }

  lemma {:induction false} PutKeys(fields: seq<Field>, key: string, out: Out)
    ensures KeySet(Put(fields, key, out)) == KeySet(fields) + {key}
  {
    var put := Put(fields, key, out);
    if fields == [] {
      assert put[0].key == key;
    } else if fields[0].key == key {
      assert put[0].key == key;
      KeysOfCons(fields[0], fields[1..]);
      KeysOfCons(Field(key, out), fields[1..]);
      assert fields == [fields[0]] + fields[1..];
    } else {
      PutKeys(fields[1..], key, out);
      KeysOfCons(fields[0], fields[1..]);
      KeysOfCons(fields[0], Put(fields[1..], key, out));
      assert fields == [fields[0]] + fields[1..];
    }
  }

  lemma KeysOfCons(f: Field, fields: seq<Field>)
    ensures KeySet([f] + fields) == {f.key} + KeySet(fields)
  {
    var all := [f] + fields;
    assert all[0] == f;
    forall i | 0 <= i < |fields| ensures fields[i].key in KeySet(all) {
      assert all[i + 1] == fields[i];
    }
  }

  /** The output keys are exactly the first hundred input keys, unchanged, and the truncation
      field when there are more. */
  lemma OutputKeysExact(h: Heap, ps: seq<Property>, depth: nat, extra: set<string>, redact: Redactor)
    requires depth <= MAX_DEPTH
    ensures KeySet(SanitizeObject(h, ps, depth, extra, redact)) ==
      (set i | 0 <= i < |ps| && i < MAX_OBJECT_KEYS :: ps[i].key)
      + (if |ps| > MAX_OBJECT_KEYS then {TRUNCATED_KEYS_FIELD} else {})
  {
    hide SanitizeValue, Put, Sensitive;
    var n := if |ps| <= MAX_OBJECT_KEYS then |ps| else MAX_OBJECT_KEYS;
    var fields := seq(n, i requires 0 <= i < n => SanitizeProperty(h, ps[i], depth, extra, redact));
    assert forall i :: 0 <= i < n ==> fields[i].key == ps[i].key;
    if |ps| > MAX_OBJECT_KEYS {
      PutKeys(fields, TRUNCATED_KEYS_FIELD, OCount(|ps| - MAX_OBJECT_KEYS));
    }
  }

  /** Keys are not cut: one of any length is logged as it is. */
  lemma LongKeySurvives(h: Heap, length: nat, extra: set<string>, redact: Redactor)
    ensures var key := seq(length, i => 'k');
      |SanitizeObject(h, [Property(key, Null)], 0, extra, redact)| == 1
      && SanitizeObject(h, [Property(key, Null)], 0, extra, redact)[0].key == key
  {
    hide Sensitive;
  }

  /** Every value text in an output tree is bounded by the limit for strings, and every key by
      the longest key given. */
  ghost predicate TextsBounded(o: Out, longestKey: nat) {
    match o
    case OText(s) => BoundedText(s, MAX_STRING_LENGTH)
    case OArray(items) => forall i :: 0 <= i < |items| ==> TextsBounded(items[i], longestKey)
    case OObject(fields) => forall i :: 0 <= i < |fields| ==> FieldBounded(fields[i], longestKey)
    case _ => true
  }

  ghost predicate FieldBounded(f: Field, longestKey: nat) {
    |f.key| <= longestKey && TextsBounded(f.out, longestKey)
  }

  /** Where `Put` leaves what. */
  lemma {:induction false} PutAt(fields: seq<Field>, key: string, out: Out, i: nat)
    requires i < |fields|
    ensures i < |Put(fields, key, out)|
    ensures Put(fields, key, out)[i] ==
      if fields[i].key == key && (forall j :: 0 <= j < i ==> fields[j].key != key) then Field(key, out) else fields[i]
  {
    if i > 0 && fields[0].key != key {
      PutAt(fields[1..], key, out, i - 1);
      assert forall j :: 0 < j < i ==> fields[j] == fields[1..][j - 1];
      assert (forall j :: 0 <= j < i ==> fields[j].key != key)
        <==> (forall j :: 0 <= j < i - 1 ==> fields[1..][j].key != key);
    }
  }

  lemma {:induction false} PutPresent(fields: seq<Field>, key: string, out: Out)
    ensures exists i :: 0 <= i < |Put(fields, key, out)| && Put(fields, key, out)[i] == Field(key, out)
  {
    var put := Put(fields, key, out);
    if fields == [] || fields[0].key == key {
      assert put[0] == Field(key, out);
    } else {
      PutPresent(fields[1..], key, out);
      var i :| 0 <= i < |Put(fields[1..], key, out)| && Put(fields[1..], key, out)[i] == Field(key, out);
      assert put[i + 1] == Field(key, out);
    }
  }

  /** The count of dropped keys is written over the value of the `i`-th property. */
  predicate Overwritten(ps: seq<Property>, i: nat)
    requires i < |ps|
  {
    |ps| > MAX_OBJECT_KEYS && ps[i].key == TRUNCATED_KEYS_FIELD
      && forall j :: 0 <= j < i ==> ps[j].key != TRUNCATED_KEYS_FIELD
  }

  /** No key that the output shows of this object, or below it, is longer. */
  ghost predicate ObjectKeysFit(h: Heap, ps: seq<Property>, depth: nat, extra: set<string>, longestKey: nat)
    requires depth <= MAX_DEPTH
    decreases MAX_DEPTH + 1 - depth, 1
  {
    && (|ps| > MAX_OBJECT_KEYS ==> |TRUNCATED_KEYS_FIELD| <= longestKey)
    && (forall i :: 0 <= i < |ps| && i < MAX_OBJECT_KEYS ==> PropertyFits(h, ps, i, depth, extra, longestKey))
  }

  ghost predicate PropertyFits(
    h: Heap, ps: seq<Property>, i: nat, depth: nat, extra: set<string>, longestKey: nat)
    requires i < |ps| && depth <= MAX_DEPTH
    decreases MAX_DEPTH + 1 - depth, 0
  {
    && |ps[i].key| <= longestKey
    && (Overwritten(ps, i) || Sensitive(ps[i].key, extra) || KeysFit(h, ps[i].value, depth + 1, extra, longestKey))
  }

  /** No key on a path that the sanitiser follows from this value is longer. */
  ghost predicate KeysFit(h: Heap, v: Value, depth: nat, extra: set<string>, longestKey: nat)
    decreases MAX_DEPTH + 1 - depth, 2
  {
    if depth > MAX_DEPTH || !v.Ref? || v.id !in h then true
    else
      match h[v.id]
      case ArrayNode(items) =>
        forall i :: 0 <= i < ArrayTake(items) ==> KeysFit(h, items[i], depth + 1, extra, longestKey)
      case ObjectNode(ps) => ObjectKeysFit(h, ps, depth, extra, longestKey)
  }

  ghost predicate AllFieldsBounded(fields: seq<Field>, longestKey: nat) {
    forall i :: 0 <= i < |fields| ==> FieldBounded(fields[i], longestKey)
  }

  lemma {:induction false} PropertyBoundedExactly(
    h: Heap, ps: seq<Property>, i: nat, depth: nat, extra: set<string>, redact: Redactor, longestKey: nat)
    requires i < |ps| && depth <= MAX_DEPTH && !Overwritten(ps, i)
    ensures FieldBounded(SanitizeProperty(h, ps[i], depth, extra, redact), longestKey)
       <==> PropertyFits(h, ps, i, depth, extra, longestKey)
    decreases MAX_DEPTH + 1 - depth, 0
  {
    hide Sensitive, Overwritten, SanitizeValue, KeysFit;
    if !Sensitive(ps[i].key, extra) {
      TextsBoundedExactly(h, ps[i].value, depth + 1, extra, redact, longestKey);
    }
  }

  lemma {:induction false} ObjectBoundedExactly(
    h: Heap, ps: seq<Property>, depth: nat, extra: set<string>, redact: Redactor, longestKey: nat)
    requires depth <= MAX_DEPTH
    ensures AllFieldsBounded(SanitizeObject(h, ps, depth, extra, redact), longestKey)
       <==> ObjectKeysFit(h, ps, depth, extra, longestKey)
    decreases MAX_DEPTH + 1 - depth, 1
  {
    hide Sensitive, Put, SanitizeValue, SanitizeProperty, FieldBounded, PropertyFits, Overwritten;
    var n := if |ps| <= MAX_OBJECT_KEYS then |ps| else MAX_OBJECT_KEYS;
    var fields := seq(n, i requires 0 <= i < n => SanitizeProperty(h, ps[i], depth, extra, redact));
    forall i | 0 <= i < n && !Overwritten(ps, i)
      ensures FieldBounded(fields[i], longestKey) <==> PropertyFits(h, ps, i, depth, extra, longestKey)
    {
      PropertyBoundedExactly(h, ps, i, depth, extra, redact, longestKey);
    }
    if |ps| <= MAX_OBJECT_KEYS {
      FewAreNotOverwritten(ps);
    } else {
      TruncatedBoundedExactly(h, ps, fields, depth, extra, redact, longestKey);
    }
  }

  lemma FewAreNotOverwritten(ps: seq<Property>)
    requires |ps| <= MAX_OBJECT_KEYS
    ensures forall i :: 0 <= i < |ps| ==> !Overwritten(ps, i)
  {
  }

  lemma TruncatedBoundedExactly(
    h: Heap, ps: seq<Property>, fields: seq<Field>, depth: nat, extra: set<string>, redact: Redactor, longestKey: nat)
    requires depth <= MAX_DEPTH && |ps| > MAX_OBJECT_KEYS && |fields| == MAX_OBJECT_KEYS
    requires forall i :: 0 <= i < |fields| ==> fields[i] == SanitizeProperty(h, ps[i], depth, extra, redact)
    requires forall i :: 0 <= i < |fields| && !Overwritten(ps, i) ==>
      (FieldBounded(fields[i], longestKey) <==> PropertyFits(h, ps, i, depth, extra, longestKey))
    ensures AllFieldsBounded(Put(fields, TRUNCATED_KEYS_FIELD, OCount(|ps| - MAX_OBJECT_KEYS)), longestKey)
       <==> ObjectKeysFit(h, ps, depth, extra, longestKey)
  {
    hide Sensitive, Put, SanitizeValue, KeysFit;
    var mark := Field(TRUNCATED_KEYS_FIELD, OCount(|ps| - MAX_OBJECT_KEYS));
    var put := Put(fields, TRUNCATED_KEYS_FIELD, mark.out);
    assert FieldBounded(mark, longestKey) <==> |TRUNCATED_KEYS_FIELD| <= longestKey;
    PutPresent(fields, TRUNCATED_KEYS_FIELD, mark.out);
    PutExact(fields, TRUNCATED_KEYS_FIELD, mark.out);
    forall i | 0 <= i < |fields|
      ensures i < |put| && put[i] == if Overwritten(ps, i) then mark else fields[i]
    {
      PutAt(fields, TRUNCATED_KEYS_FIELD, mark.out, i);
    }
    hide FieldBounded, Overwritten;
    forall i | 0 <= i < |fields| && FieldBounded(mark, longestKey)
      ensures FieldBounded(put[i], longestKey) <==> PropertyFits(h, ps, i, depth, extra, longestKey)
    {
      if Overwritten(ps, i) {
        OverwrittenFits(h, ps, i, depth, extra, longestKey);
      }
    }
  }

  lemma OverwrittenFits(h: Heap, ps: seq<Property>, i: nat, depth: nat, extra: set<string>, longestKey: nat)
    requires i < |ps| && depth <= MAX_DEPTH && Overwritten(ps, i) && |TRUNCATED_KEYS_FIELD| <= longestKey
    ensures PropertyFits(h, ps, i, depth, extra, longestKey)
  {
  }

  /** On every graph, cyclic ones included, each value text of the output is bounded by the limit
      for strings, and all keys are within a length exactly when the keys that the sanitiser
      reaches are: the first hundred of each object it enters, and the truncation field. */
  lemma {:induction false} TextsBoundedExactly(
    h: Heap, v: Value, depth: nat, extra: set<string>, redact: Redactor, longestKey: nat)
    ensures TextsBounded(SanitizeValue(h, v, depth, extra, redact), longestKey)
       <==> KeysFit(h, v, depth, extra, longestKey)
    decreases MAX_DEPTH + 1 - depth, 2
  {
    hide SanitizeObject, RedactBounded, FieldBounded, ObjectKeysFit;
    if v.Text? && depth <= MAX_DEPTH {
      RedactBoundedIsBounded(v.text, MAX_STRING_LENGTH, redact);
    } else if v.Ref? && v.id in h && depth <= MAX_DEPTH {
      match h[v.id]
      case ArrayNode(items) =>
        forall i | 0 <= i < ArrayTake(items)
          ensures TextsBounded(SanitizeValue(h, items[i], depth + 1, extra, redact), longestKey)
             <==> KeysFit(h, items[i], depth + 1, extra, longestKey)
        {
          TextsBoundedExactly(h, items[i], depth + 1, extra, redact, longestKey);
        }
        var n := ArrayTake(items);
        var outs := seq(n, i requires 0 <= i < n => SanitizeValue(h, items[i], depth + 1, extra, redact));
        assert SanitizeValue(h, v, depth, extra, redact) == OArray(outs);
        assert forall i :: 0 <= i < n ==>
          TextsBounded(outs[i], longestKey) == KeysFit(h, items[i], depth + 1, extra, longestKey);
      case ObjectNode(ps) => ObjectBoundedExactly(h, ps, depth, extra, redact, longestKey);
    }
  }

  // ---------------------------------------------------------------- the longest key of the graph

  /** No object of the graph has a longer key. */
  ghost predicate KeysWithin(h: Heap, longestKey: nat) {
    forall id :: id in h && h[id].ObjectNode? ==> PropertyKeysWithin(h[id].properties, longestKey)
  }

  ghost predicate PropertyKeysWithin(ps: seq<Property>, longestKey: nat) {
    forall i :: 0 <= i < |ps| ==> |ps[i].key| <= longestKey
  }

  lemma {:induction false} WithinFits(h: Heap, v: Value, depth: nat, extra: set<string>, longestKey: nat)
    requires KeysWithin(h, longestKey) && |TRUNCATED_KEYS_FIELD| <= longestKey
    ensures KeysFit(h, v, depth, extra, longestKey)
    decreases MAX_DEPTH + 1 - depth
  {
    hide Sensitive, Overwritten;
    if v.Ref? && v.id in h && depth <= MAX_DEPTH {
      match h[v.id]
      case ArrayNode(items) =>
        forall i | 0 <= i < ArrayTake(items) ensures KeysFit(h, items[i], depth + 1, extra, longestKey) {
          WithinFits(h, items[i], depth + 1, extra, longestKey);
        }
      case ObjectNode(ps) =>
        assert PropertyKeysWithin(ps, longestKey);
        forall i | 0 <= i < |ps| && i < MAX_OBJECT_KEYS ensures PropertyFits(h, ps, i, depth, extra, longestKey) {
          WithinFits(h, ps[i].value, depth + 1, extra, longestKey);
        }
        assert ObjectKeysFit(h, ps, depth, extra, longestKey);
    }
  }

  /** In particular all text of the output is bounded by the limit for strings, the longest key of
      the graph and the name of the truncation field. */
  lemma OutputTextsBounded(h: Heap, v: Value, depth: nat, extra: set<string>, redact: Redactor, longestKey: nat)
    requires KeysWithin(h, longestKey) && |TRUNCATED_KEYS_FIELD| <= longestKey
    ensures TextsBounded(SanitizeValue(h, v, depth, extra, redact), longestKey)
  {
    hide SanitizeValue, KeysWithin, KeysFit;
    WithinFits(h, v, depth, extra, longestKey);
    TextsBoundedExactly(h, v, depth, extra, redact, longestKey);
  }
}
