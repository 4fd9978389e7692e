/** Log scrubbing: redacting denied keys in an arbitrary, possibly cyclic object graph. */
module ScrubModel {

  /** The identity of a heap object. */
  type Ref = int

  datatype Value = Undefined | Null | Primitive(n: int) | Text(s: string) | Object(r: Ref)

  datatype Entry = Entry(key: string, value: Value)

  /** Dates, regular expressions and buffers are opaque; other objects are arrays or records. */
  datatype Shape = Opaque | Items(values: seq<Value>) | Record(entries: seq<Entry>)

  type Graph = map<Ref, Shape>

  datatype Out =
    | OutUndefined | OutNull | OutPrimitive(n: int) | OutText(s: string) | OutOpaque(r: Ref)
    | OutItems(values: seq<Out>) | OutRecord(entries: seq<OutEntry>)

  datatype OutEntry = OutEntry(key: string, value: Out)

  // ---------- Keys ----------

  function LowerChar(c: char): char {
    if 'A' <= c <= 'Z' then c - 'A' + 'a' else c
  }

  function Lower(s: string): string {
    seq(|s|, i requires 0 <= i < |s| => LowerChar(s[i]))
  }

  function DefaultScrubKeys(): set<string> {
    { "password", "passwordhash", "token", "accesstoken", "refreshtoken", "jwt", "bearer", "authorization",
      "apikey", "apisecret", "hmacsecret", "keyhash", "secrethash", "x-api-key", "x-api-signature",
      "nationalid", "idnumber", "kycpayload", "encryptedid", "idimage",
      "instapayhandle", "vodafonecashnumber", "bankaccount", "iban", "cardnumber", "cvv", "cardpan",
      "email", "phone", "phonenumber", "address", "gpslocation",
      "webhooksecret", "admintoken", "cookie", "set-cookie" }
  }

  function NeverScrubKeys(): set<string> {
    { "userid", "tenantid", "partnerid" }
  }

  function DenySet(extraKeys: seq<string>): set<string> {
    DefaultScrubKeys() + set k | k in extraKeys :: Lower(k)
  }

  /** Tracing keys are exempt even when the caller lists them. */
  predicate Denied(deny: set<string>, key: string) {
    Lower(key) in deny && Lower(key) !in NeverScrubKeys()
  }

  // ---------- Values under denied keys ----------

  predicate UrlSafe(c: char) {
    'A' <= c <= 'Z' || 'a' <= c <= 'z' || '0' <= c <= '9' || c == '_' || c == '-'
  }

  /** Three non-empty url-safe segments separated by dots. */
  predicate LooksLikeJwt(s: string) {
    exists i, j | 0 < i < j < |s| ::
      && i + 1 < j < |s| - 1 && s[i] == '.' && s[j] == '.'
      && forall k | 0 <= k < |s| :: k == i || k == j || UrlSafe(s[k])
  }

  predicate StartsWithBearer(s: string) {
    |s| >= 7 && Lower(s[..7]) == "bearer "
  }

  const REDACTED := "[REDACTED]"
  const REDACTED_JWT := "[REDACTED-JWT]"
  const CIRCULAR := "[Circular]"

  function ScrubValue(lowerKey: string, value: Value): Out {
    match value
    case Undefined => OutUndefined
    case Null => OutNull
    case Text(s) =>
      if LooksLikeJwt(s) then OutText(REDACTED_JWT)
      else if lowerKey == "authorization" && StartsWithBearer(s) then OutText("Bearer " + REDACTED)
      else OutText(REDACTED)
    case _ => OutNull
  }

  // ---------- The walk ----------

  /** The scrubbed value and the objects seen so far; an object already seen is not entered again. */
  function Scrub(g: Graph, v: Value, deny: set<string>, seen: set<Ref>): (r: (Out, set<Ref>))
    ensures seen <= r.1
    decreases g.Keys - seen, 0
  {
    match v
    case Undefined => (OutUndefined, seen)
    case Null => (OutNull, seen)
    case Primitive(n) => (OutPrimitive(n), seen)
    case Text(s) => (OutText(s), seen)
    case Object(ref) =>
      if ref !in g || g[ref].Opaque? then (OutOpaque(ref), seen)
      else if ref in seen then (OutText(CIRCULAR), seen)
      else
        assert ref in g.Keys - seen && ref !in g.Keys - (seen + {ref});
        match g[ref]
        case Items(values) =>
          var (outs, after) := ScrubItems(g, values, deny, seen + {ref});
          (OutItems(outs), after)
        case Record(entries) =>
          var (outs, after) := ScrubEntries(g, entries, deny, seen + {ref});
          (OutRecord(outs), after)
  }

  function ScrubItems(g: Graph, values: seq<Value>, deny: set<string>, seen: set<Ref>): (r: (seq<Out>, set<Ref>))
    ensures seen <= r.1
    decreases g.Keys - seen, 1 + |values|
  {
    if values == [] then ([], seen)
    else
      var (out, between) := Scrub(g, values[0], deny, seen);
      assert g.Keys - between <= g.Keys - seen;
      var (outs, after) := ScrubItems(g, values[1..], deny, between);
      ([out] + outs, after)
  }

  function ScrubEntries(g: Graph, entries: seq<Entry>, deny: set<string>, seen: set<Ref>): (r: (seq<OutEntry>, set<Ref>))
    ensures seen <= r.1
    decreases g.Keys - seen, 1 + |entries|
  {
    if entries == [] then ([], seen)
    else
      var e := entries[0];
      var (out, between) :=
        if Denied(deny, e.key) then (ScrubValue(Lower(e.key), e.value), seen) else Scrub(g, e.value, deny, seen);
      assert g.Keys - between <= g.Keys - seen;
      var (outs, after) := ScrubEntries(g, entries[1..], deny, between);
      ([OutEntry(e.key, out)] + outs, after)
  }
}
