/** Which keys the sanitiser of src/logging/sanitize.util.ts redacts, as they are spelled, and the
    limits it keeps, as numbers. */
module LogSanitizerKeys {
  import opened LogSanitizer

  // ---------------------------------------------------------------- spelling

  /** A hyphen, an underscore or white space. */
  predicate Separator(c: char) {
    c == '-' || c == '_' || c == ' ' || c as int in {9, 10, 11, 12, 13}
  }

  /** The same character, or a capital of the letter `b`. */
  predicate InEitherCase(a: char, b: char) {
    a == b || ('A' <= a <= 'Z' && b as int == a as int + 32)
  }

  /** The key is the name with letters put in either case and separators put in anywhere. */
  predicate Variant(key: string, name: string) {
    if key == [] then name == []
    else
      || (Separator(key[0]) && Variant(key[1..], name))
      || (name != [] && InEitherCase(key[0], name[0]) && Variant(key[1..], name[1..]))
  }

  /** No capitals and no separators. */
  predicate PlainName(name: string) {
    forall i :: 0 <= i < |name| ==> !('A' <= name[i] <= 'Z') && !Separator(name[i])
  }

  lemma {:induction false} VariantExactly(key: string, name: string)
    requires PlainName(name)
    ensures Normal(key) == name <==> Variant(key, name)
    decreases |key|
  {
    if key != [] {
      VariantExactly(key[1..], name);
      if name != [] {
        assert PlainName(name[1..]) by {
          assert forall i :: 0 <= i < |name[1..]| ==> name[1..][i] == name[i + 1];
        }
        VariantExactly(key[1..], name[1..]);
        assert name == [name[0]] + name[1..];
      }
      NormalStep(key);
    }
  }

  lemma NormalStep(key: string)
    requires key != []
    ensures Separator(key[0]) ==> Normal(key) == Normal(key[1..])
    ensures !Separator(key[0]) ==>
      Normal(key) != [] && InEitherCase(key[0], Normal(key)[0]) && Normal(key)[1..] == Normal(key[1..])
      && !('A' <= Normal(key)[0] <= 'Z')
  {
  }

  lemma {:induction false} NormalIsPlain(key: string)
    ensures PlainName(Normal(key))
  {
    if key != [] {
      NormalIsPlain(key[1..]);
      NormalParts(key);
    }
  }

  lemma NormalParts(key: string)
    requires key != [] && PlainName(Normal(key[1..]))
    ensures PlainName(Normal(key))
  {
    NormalStep(key);
    var n := Normal(key);
    if !Separator(key[0]) {
      forall i | 0 <= i < |n| ensures !('A' <= n[i] <= 'Z') && !Separator(n[i]) {
        assert i > 0 ==> n[i] == n[1..][i - 1];
      }
    }
  }

  /** The key is a variant of a plain name that is listed or was given as extra. */
  ghost predicate Redacts(key: string, extra: set<string>) {
    exists name :: (name in SENSITIVE_FIELDS || name in extra) && PlainName(name) && Variant(key, name)
  }

  lemma SensitiveExactly(key: string, extra: set<string>)
    ensures Sensitive(key, extra) <==> Redacts(key, extra)
  {
    hide Normal, PlainName, Variant;
    if Sensitive(key, extra) {
      NormalIsPlain(key);
      VariantExactly(key, Normal(key));
    }
    if Redacts(key, extra) {
      var name :| (name in SENSITIVE_FIELDS || name in extra) && PlainName(name) && Variant(key, name);
      VariantExactly(key, name);
    }
  }

  /** Every property is logged under its own key.  Its value is the redaction mark exactly when the
      key is a variant of a plain listed or extra name, and otherwise the sanitised value. */
  lemma PropertyLogged(h: Heap, p: Property, depth: nat, extra: set<string>, redact: Redactor)
    requires depth <= 8
    ensures SanitizeProperty(h, p, depth, extra, redact) ==
      Field(p.key, if Redacts(p.key, extra) then OText("[REDACTED]")
                   else SanitizeValue(h, p.value, depth + 1, extra, redact))
  {
    hide Sensitive, Redacts, SanitizeValue;
    SensitiveExactly(p.key, extra);
  }

  /** However they are spelled, these are never logged. */
  lemma SecretsListed(key: string, extra: set<string>)
    requires || Variant(key, "password") || Variant(key, "token") || Variant(key, "accesstoken")
             || Variant(key, "secret") || Variant(key, "apikey") || Variant(key, "clientsecret")
             || Variant(key, "privatekey") || Variant(key, "mnemonic") || Variant(key, "seed")
    ensures Redacts(key, extra)
  {
    hide Variant, PlainName;
    PlainNames();
    MorePlainNames();
    NamesListed();
  }

  lemma NamesListed()
    ensures {"password", "token", "accesstoken", "secret", "apikey"} <= SENSITIVE_FIELDS
    ensures {"clientsecret", "privatekey", "mnemonic", "seed"} <= SENSITIVE_FIELDS
  {
  }

  lemma PlainNames()
    ensures PlainName("password") && PlainName("token") && PlainName("accesstoken") && PlainName("secret")
  {
  }

  lemma MorePlainNames()
    ensures PlainName("apikey") && PlainName("clientsecret") && PlainName("privatekey")
    ensures PlainName("mnemonic") && PlainName("seed")
  {
  }

  /** A name that is not plain never matches a key, listed or extra: keys lose their capitals and
      separators before they are looked up. */
  lemma OtherNamesMatchNothing(key: string, name: string)
    requires !PlainName(name)
    ensures Normal(key) != name
  {
    NormalIsPlain(key);
  }

  /** So the listed `db_password` protects nothing: a key of that very name is logged. */
  lemma UnderscoredNameIsLogged()
    ensures "db_password" in SENSITIVE_FIELDS && !Redacts("db_password", {})
  {
    hide Normal, PlainName, Variant;
    SensitiveExactly("db_password", {});
    NormalOf("db", "_" + "password");
    NormalOf("_", "password");
    NormalStep("_");
    ShortNames();
    PlainStays("db");
    PlainStays("password");
    assert "_"[1..] == "" && "db" + ("_" + "password") == "db_password" && "db" + ("" + "password") == "dbpassword";
    NotListed();
  }

  lemma ShortNames()
    ensures PlainName("db") && PlainName("password") && Normal("") == ""
  {
  }

  lemma {:induction false} PlainStays(name: string)
    requires PlainName(name)
    ensures Normal(name) == name
  {
    if name != [] {
      assert PlainName(name[1..]) by {
        assert forall i :: 0 <= i < |name[1..]| ==> name[1..][i] == name[i + 1];
      }
      PlainStays(name[1..]);
      assert name == [name[0]] + name[1..];
    }
  }

  lemma {:induction false} NormalOf(a: string, b: string)
    ensures Normal(a + b) == Normal(a) + Normal(b)
  {
    if a == [] {
      assert a + b == b;
    } else {
      assert (a + b)[1..] == a[1..] + b;
      NormalOf(a[1..], b);
    }
  }

  lemma NotListed()
    ensures "dbpassword" !in SENSITIVE_FIELDS
  {
    assert |"dbpassword"| == 10 && "dbpassword"[0] == 'd' && "dbpassword"[1] == 'b';
  }

  // ---------------------------------------------------------------- limits

  /** Arrays keep their first fifty items, in order. */
  lemma ArrayLogged(h: Heap, id: nat, depth: nat, extra: set<string>, redact: Redactor)
    requires id in h && h[id].ArrayNode? && depth <= 8
    ensures var items, out := h[id].items, SanitizeValue(h, Ref(id), depth, extra, redact);
      && out.OArray? && |out.items| == (if |items| <= 50 then |items| else 50)
      && forall i :: 0 <= i < |out.items| ==> out.items[i] == SanitizeValue(h, items[i], depth + 1, extra, redact)
  {
    hide SanitizeObject, RedactBounded;
  }

  /** Beyond depth eight only a mark is left of what is not null; up to there, values without
      structure are logged as they are, and text within 4096 characters as the patterns leave it. */
  lemma ScalarLogged(h: Heap, v: Value, depth: nat, extra: set<string>, redact: Redactor)
    ensures v.Null? ==> SanitizeValue(h, v, depth, extra, redact) == ONull
    ensures v.Undefined? ==> SanitizeValue(h, v, depth, extra, redact) == OUndefined
    ensures depth > 8 && !v.Null? && !v.Undefined? ==>
      SanitizeValue(h, v, depth, extra, redact) == OText("[MAX_DEPTH]")
    ensures depth <= 8 && v.Bool? ==> SanitizeValue(h, v, depth, extra, redact) == OBool(v.b)
    ensures depth <= 8 && v.Number? ==> SanitizeValue(h, v, depth, extra, redact) == ONumber(v.n)
    ensures depth <= 8 && v.Date? ==> SanitizeValue(h, v, depth, extra, redact) == ODate(v.ms)
    ensures depth <= 8 && v.Text? && |v.text| <= 4096 && |redact(v.text)| <= 4096 ==>
      SanitizeValue(h, v, depth, extra, redact) == OText(redact(v.text))
  {
    hide SanitizeObject;
  }

  /** Of a longer text the part before its last white space within the limit is kept, and the mark
      counts all the rest; without white space nothing of it is. */
  lemma LongTextLogged(text: string, limit: nat, b: int, redact: Redactor)
    requires limit < |text| && -1 <= b < limit
    requires b >= 0 ==> text[b] == ' ' || text[b] as int in {9, 10, 11, 12, 13}
    requires forall i :: b < i < limit ==> text[i] != ' ' && text[i] as int !in {9, 10, 11, 12, 13}
    ensures RedactBounded(text, limit, redact) ==
      if b > 0 then Take(redact(text[..b]), limit) + ("...[TRUNCATED " + Decimal(|text| - b) + " chars]")
      else Take(redact("[REDACTED]"), limit) + ("...[TRUNCATED " + Decimal(|text|) + " chars]")
  {
    hide LastBreak, Decimal, Take;
    var head := text[..limit];
    assert forall i :: 0 <= i < limit ==> head[i] == text[i];
    var k := LastBreak(head);
    assert k == b;
    assert head[..if b > 0 then b else 0] == text[..if b > 0 then b else 0];
  }

  /** Objects of at most a hundred properties are logged property by property. */
  lemma ObjectLogged(h: Heap, ps: seq<Property>, depth: nat, extra: set<string>, redact: Redactor, i: nat)
    requires depth <= 8 && i < |ps| <= 100
    ensures var out := SanitizeObject(h, ps, depth, extra, redact);
      |out| == |ps| && out[i] == SanitizeProperty(h, ps[i], depth, extra, redact)
  {
    hide SanitizeValue, Sensitive;
  }

  /** Of a larger object the first hundred properties are logged in their places, and one field says
      how many were dropped; a property that has the name of that field gives way to it. */
  lemma LargeObjectLogged(h: Heap, ps: seq<Property>, depth: nat, extra: set<string>, redact: Redactor, i: nat)
    requires depth <= 8 && |ps| > 100 && i < 100
    ensures var out := SanitizeObject(h, ps, depth, extra, redact);
      && 100 <= |out| <= 101
      && (exists k :: 0 <= k < |out| && out[k] == Field("[TRUNCATED_KEYS]", OCount(|ps| - 100)))
      && (ps[i].key != "[TRUNCATED_KEYS]" ==> out[i] == SanitizeProperty(h, ps[i], depth, extra, redact))
  {
    hide SanitizeValue, Sensitive, Put;
    var fields := seq(100, k requires 0 <= k < 100 => SanitizeProperty(h, ps[k], depth, extra, redact));
    PutPresent(fields, "[TRUNCATED_KEYS]", OCount(|ps| - 100));
    PutExact(fields, "[TRUNCATED_KEYS]", OCount(|ps| - 100));
    PutAt(fields, "[TRUNCATED_KEYS]", OCount(|ps| - 100), i);
  }

  /** The node bound at the root as a number. */
  lemma RootSize(h: Heap, v: Value, extra: set<string>, redact: Redactor)
    ensures 99 * Size(SanitizeValue(h, v, 0, extra, redact)) <= 101 * 1000000000000000000 - 2
  {
    hide SanitizeValue, Size;
    OutputSize(h, v, 0, extra, redact);
    SizeBoundClosed(0);
    NinthPower();
  }

  lemma NinthPower()
    ensures Pow100(9) == 1000000000000000000
  {
    assert Pow100(1) == 100;
    assert Pow100(2) == 10000;
    assert Pow100(3) == 1000000;
    assert Pow100(4) == 100000000;
    assert Pow100(5) == 10000000000;
    assert Pow100(6) == 1000000000000;
    assert Pow100(7) == 100000000000000;
    assert Pow100(8) == 10000000000000000;
  }
}
