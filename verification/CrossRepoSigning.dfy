/** `buildCrossRepoSigningPayload` of src/cross-repo/cross-repo.signing.ts: the
    exact string a client signs.

    Four header fields and the canonical payload are joined by newlines.  The
    payload is always recoverable, because canonical JSON never holds a raw
    newline.  The header fields are recoverable exactly when none of them holds a
    newline. */
module CrossRepoSigning {
  import opened JsonText
  import opened CanonicalJson

  datatype Envelope = Envelope(
    clientId: Text,
    contractVersion: Text,
    requestType: Text,
    signedAt: Text,
    payload: Js)

  function Headers(e: Envelope): Text {
    e.clientId + [NEWLINE] + e.contractVersion + [NEWLINE] + e.requestType + [NEWLINE] + e.signedAt
  }

  /** `buildCrossRepoSigningPayload(envelope)` */
  function SigningPayload(e: Envelope): Text {
    Headers(e) + [NEWLINE] + Canonical(e.payload)
  }

  /** No header field holds a newline: something a caller can check before signing. */
  predicate SingleLineHeaders(e: Envelope) {
    NEWLINE !in e.clientId && NEWLINE !in e.contractVersion && NEWLINE !in e.requestType && NEWLINE !in e.signedAt
  }

  /** Equal headers and the same JSON payload. */
  ghost predicate SameEnvelope(e: Envelope, f: Envelope) {
    && e.clientId == f.clientId
    && e.contractVersion == f.contractVersion
    && e.requestType == f.requestType
    && e.signedAt == f.signedAt
    && Logical(e.payload) == Logical(f.payload)
  }

  lemma LastLine(a: Text, x: Text, b: Text, y: Text)
    requires a + [NEWLINE] + x == b + [NEWLINE] + y
    requires NEWLINE !in x && NEWLINE !in y
    ensures a == b && x == y
  {
    var t := a + [NEWLINE] + x;
    assert t[|a|] == NEWLINE && t[|b|] == NEWLINE;
    assert forall i :: |a| < i < |t| ==> t[i] == x[i - |a| - 1];
    assert forall i :: |b| < i < |t| ==> t[i] == y[i - |b| - 1];
    assert |a| == |b|;
    assert a == t[..|a|] && x == t[|a| + 1..] && y == t[|b| + 1..];
  }

  lemma FirstLine(a: Text, x: Text, b: Text, y: Text)
    requires a + [NEWLINE] + x == b + [NEWLINE] + y
    requires NEWLINE !in a && NEWLINE !in b
    ensures a == b && x == y
  {
    var t := a + [NEWLINE] + x;
    assert t[|a|] == NEWLINE && t[|b|] == NEWLINE;
    assert forall i :: 0 <= i < |a| ==> t[i] == a[i];
    assert forall i :: 0 <= i < |b| ==> t[i] == b[i];
    assert |a| == |b|;
    assert a == t[..|a|] && x == t[|a| + 1..] && y == t[|b| + 1..];
  }

  function Newlines(t: Text): nat {
    if t == [] then 0 else (if t[0] == NEWLINE then 1 else 0) + Newlines(t[1..])
  }

  lemma {:induction false} NewlinesAppend(a: Text, b: Text)
    ensures Newlines(a + b) == Newlines(a) + Newlines(b)
  {
    if a == [] {
      assert a + b == b;
    } else {
      assert (a + b)[1..] == a[1..] + b;
      NewlinesAppend(a[1..], b);
    }
  }

  lemma {:induction false} NewlinesZero(t: Text)
    ensures Newlines(t) == 0 <==> NEWLINE !in t
  {
    if t != [] {
      NewlinesZero(t[1..]);
      assert NEWLINE in t <==> t[0] == NEWLINE || NEWLINE in t[1..];
    }
  }

  lemma HeaderNewlines(e: Envelope)
    ensures Newlines(Headers(e)) == 3 + Newlines(e.clientId) + Newlines(e.contractVersion)
                                      + Newlines(e.requestType) + Newlines(e.signedAt)
  {
    var ab := e.clientId + [NEWLINE] + e.contractVersion;
    var abc := ab + [NEWLINE] + e.requestType;
    NewlinesAppend(e.clientId, [NEWLINE]);
    NewlinesAppend(e.clientId + [NEWLINE], e.contractVersion);
    NewlinesAppend(ab, [NEWLINE]);
    NewlinesAppend(ab + [NEWLINE], e.requestType);
    NewlinesAppend(abc, [NEWLINE]);
    NewlinesAppend(abc + [NEWLINE], e.signedAt);
  }

  lemma SingleLineCount(e: Envelope)
    ensures SingleLineHeaders(e) <==> Newlines(Headers(e)) == 3
  {
    hide Newlines;
    HeaderNewlines(e);
    NewlinesZero(e.clientId);
    NewlinesZero(e.contractVersion);
    NewlinesZero(e.requestType);
    NewlinesZero(e.signedAt);
  }

  lemma HeadersDetermined(e: Envelope, f: Envelope)
    requires SingleLineHeaders(e) && SingleLineHeaders(f) && Headers(e) == Headers(f)
    ensures e.clientId == f.clientId && e.contractVersion == f.contractVersion
    ensures e.requestType == f.requestType && e.signedAt == f.signedAt
  {
    var e3, f3 := e.requestType + [NEWLINE] + e.signedAt, f.requestType + [NEWLINE] + f.signedAt;
    var e2, f2 := e.contractVersion + [NEWLINE] + e3, f.contractVersion + [NEWLINE] + f3;
    assert Headers(e) == e.clientId + [NEWLINE] + e2;
    assert Headers(f) == f.clientId + [NEWLINE] + f2;
    FirstLine(e.clientId, e2, f.clientId, f2);
    FirstLine(e.contractVersion, e3, f.contractVersion, f3);
    FirstLine(e.requestType, e.signedAt, f.requestType, f.signedAt);
  }

  /** Whatever the headers hold, the signed text determines the payload and the header block. */
  lemma PayloadAlwaysDetermined(e: Envelope, f: Envelope)
    requires WellFormed(e.payload) && WellFormed(f.payload)
    requires SigningPayload(e) == SigningPayload(f)
    ensures Logical(e.payload) == Logical(f.payload) && Headers(e) == Headers(f)
  {
    hide Canonical, Logical, Headers;
    CanonicalPrintable(e.payload);
    CanonicalPrintable(f.payload);
    LastLine(Headers(e), Canonical(e.payload), Headers(f), Canonical(f.payload));
    CanonicalExact(e.payload, f.payload);
  }

  /** A single-line envelope is the only one with its signing payload. */
  lemma SingleLineDetermined(e: Envelope, f: Envelope)
    requires WellFormed(e.payload) && WellFormed(f.payload)
    requires SingleLineHeaders(e)
    ensures SigningPayload(e) == SigningPayload(f) <==> SameEnvelope(e, f)
  {
    if SigningPayload(e) == SigningPayload(f) {
      PayloadAlwaysDetermined(e, f);
      SingleLineCount(e);
      SingleLineCount(f);
      HeadersDetermined(e, f);
    }
    if SameEnvelope(e, f) {
      CanonicalExact(e.payload, f.payload);
    }
  }

  /** Text with a newline in it, cut there. */
  lemma CutAtNewline(t: Text) returns (a: Text, b: Text)
    requires NEWLINE in t
    ensures t == a + [NEWLINE] + b
  {
    var i :| 0 <= i < |t| && t[i] == NEWLINE;
    a, b := t[..i], t[i + 1..];
  }

  /** A newline in a header lets another envelope share the signing payload. */
  lemma MultiLineAmbiguous(e: Envelope) returns (f: Envelope)
    requires !SingleLineHeaders(e)
    ensures f.payload == e.payload && SigningPayload(f) == SigningPayload(e)
    ensures f.clientId != e.clientId || f.contractVersion != e.contractVersion || f.requestType != e.requestType
  {
    hide Canonical;
    if NEWLINE in e.clientId {
      var a, b := CutAtNewline(e.clientId);
      f := Envelope(a, b, e.contractVersion + [NEWLINE] + e.requestType, e.signedAt, e.payload);
      assert |f.clientId| < |e.clientId| && Headers(f) == Headers(e);
    } else if NEWLINE in e.contractVersion {
      var a, b := CutAtNewline(e.contractVersion);
      f := e.(clientId := e.clientId + [NEWLINE] + a, contractVersion := b);
      assert |f.clientId| > |e.clientId| && Headers(f) == Headers(e);
    } else if NEWLINE in e.requestType {
      var a, b := CutAtNewline(e.requestType);
      f := e.(contractVersion := e.contractVersion + [NEWLINE] + a, requestType := b);
      assert |f.contractVersion| > |e.contractVersion| && Headers(f) == Headers(e);
    } else {
      var a, b := CutAtNewline(e.signedAt);
      f := e.(requestType := e.requestType + [NEWLINE] + a, signedAt := b);
      assert |f.requestType| > |e.requestType| && Headers(f) == Headers(e);
    }
  }

  /** The signing payload determines the envelope exactly when no header spans lines. */
  lemma SigningPayloadExact(e: Envelope)
    requires WellFormed(e.payload)
    ensures SingleLineHeaders(e) <==>
      forall f: Envelope :: WellFormed(f.payload) && SigningPayload(f) == SigningPayload(e) ==> SameEnvelope(e, f)
  {
    hide SigningPayload, SingleLineHeaders, WellFormed, Logical;
    if SingleLineHeaders(e) {
      forall f: Envelope | WellFormed(f.payload) && SigningPayload(f) == SigningPayload(e)
        ensures SameEnvelope(e, f)
      {
        SingleLineDetermined(e, f);
      }
    } else {
      var f := MultiLineAmbiguous(e);
      assert WellFormed(f.payload) && SigningPayload(f) == SigningPayload(e) && !SameEnvelope(e, f);
    }
  }

  // ---------------------------------------------------------------- the lines

  /** `text.split("\n")` */
  function Lines(t: Text): (lines: seq<Text>)
    ensures lines != []
  {
    if t == [] then [[]]
    else
      var lines := Lines(t[1..]);
      if t[0] == 0x0A then [[]] + lines else [[t[0]] + lines[0]] + lines[1..]
  }

  lemma {:induction false} OneLine(a: Text)
    requires 0x0A !in a
    ensures Lines(a) == [a]
  {
    if a != [] {
      OneLine(a[1..]);
      assert [a[0]] + a[1..] == a;
    }
  }

  lemma {:induction false} LineThen(a: Text, rest: Text)
    requires 0x0A !in a
    ensures Lines(a + [0x0A] + rest) == [a] + Lines(rest)
  {
    var t := a + [0x0A] + rest;
    if a == [] {
      assert t[1..] == rest;
    } else {
      LineThen(a[1..], rest);
      assert t[1..] == a[1..] + [0x0A] + rest;
      assert ([a[1..]] + Lines(rest))[1..] == Lines(rest);
      assert [a[0]] + a[1..] == a;
    }
  }

  /** Split at its newlines, the signing payload of a single-line envelope is the client, the
      version, the request type, the time and the canonical payload, in that order. */
  lemma PayloadLines(e: Envelope)
    requires SingleLineHeaders(e)
    ensures Lines(SigningPayload(e))
         == [e.clientId, e.contractVersion, e.requestType, e.signedAt, Canonical(e.payload)]
  {
    hide Lines, Canonical;
    var p := Canonical(e.payload);
    CanonicalPrintable(e.payload);
    OneLine(p);
    var a := e.signedAt + [0x0A] + p;
    var b := e.requestType + [0x0A] + a;
    var c := e.contractVersion + [0x0A] + b;
    LineThen(e.signedAt, p);
    LineThen(e.requestType, a);
    LineThen(e.contractVersion, b);
    LineThen(e.clientId, c);
    assert SigningPayload(e) == e.clientId + [0x0A] + c;
  }
}
