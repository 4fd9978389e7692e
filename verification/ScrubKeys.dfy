/** Which keys are redacted, and how, character by character. */
module ScrubKeys {
  import opened Letters
  import opened ScrubModel

  // ---------- Letters without case ----------

  lemma {:induction false} LowerMeans(s: string, t: string)
    ensures Lower(s) == Lower(t) <==> SameUpToCase(s, t)
    ensures NoCapitals(s) ==> Lower(s) == s
  {
    if Lower(s) == Lower(t) {
      assert |Lower(s)| == |s| && |Lower(t)| == |t|;
      forall i | 0 <= i < |s| ensures SameLetter(s[i], t[i]) { assert Lower(s)[i] == Lower(t)[i]; }
    }
    if SameUpToCase(s, t) {
      forall i | 0 <= i < |s| ensures Lower(s)[i] == Lower(t)[i] { assert SameLetter(s[i], t[i]); }
      assert Lower(s) == Lower(t);
    }
    if NoCapitals(s) { assert Lower(s) == s; }
  }

  // ---------- The policy ----------

  const CREDENTIALS: seq<string> := [
    "password", "passwordhash", "token", "accesstoken", "refreshtoken", "jwt", "bearer", "authorization",
    "apikey", "apisecret", "hmacsecret", "keyhash", "secrethash", "x-api-key", "x-api-signature"]

  const IDENTITY: seq<string> := ["nationalid", "idnumber", "kycpayload", "encryptedid", "idimage"]

  const FINANCIAL: seq<string> := [
    "instapayhandle", "vodafonecashnumber", "bankaccount", "iban", "cardnumber", "cvv", "cardpan"]

  const PERSONAL: seq<string> := ["email", "phone", "phonenumber", "address", "gpslocation"]

  const INTERNAL: seq<string> := ["webhooksecret", "admintoken", "cookie", "set-cookie"]

  const TRACING: seq<string> := ["userid", "tenantid", "partnerid"]

  predicate IsOneOf(key: string, keys: seq<string>) {
    exists k :: 0 <= k < |keys| && SameUpToCase(key, keys[k])
  }

  /** The keys that are always redacted. */
  predicate IsListed(key: string) {
    IsOneOf(key, CREDENTIALS) || IsOneOf(key, IDENTITY) || IsOneOf(key, FINANCIAL) || IsOneOf(key, PERSONAL) || IsOneOf(key, INTERNAL)
  }

  lemma NoCapitalsInCredentials()
    ensures forall k | 0 <= k < |CREDENTIALS| :: NoCapitals(CREDENTIALS[k])
  {
  }

  lemma NoCapitalsInHandles()
    ensures forall k | 0 <= k < |IDENTITY| :: NoCapitals(IDENTITY[k])
    ensures forall k | 0 <= k < |FINANCIAL| :: NoCapitals(FINANCIAL[k])
  {
  }

  lemma NoCapitalsElsewhere()
    ensures forall k | 0 <= k < |PERSONAL| :: NoCapitals(PERSONAL[k])
    ensures forall k | 0 <= k < |INTERNAL| :: NoCapitals(INTERNAL[k])
    ensures forall k | 0 <= k < |TRACING| :: NoCapitals(TRACING[k])
  {
  }

  /** A list of keys without capitals contains the lower-case form of exactly the keys that equal one of them up to case. */
  lemma {:induction false} ListedByLower(key: string, keys: seq<string>)
    requires forall k | 0 <= k < |keys| :: NoCapitals(keys[k])
    ensures Lower(key) in keys <==> IsOneOf(key, keys)
  {
    forall k | 0 <= k < |keys| ensures Lower(key) == keys[k] <==> SameUpToCase(key, keys[k]) {
      LowerMeans(keys[k], key);
      LowerMeans(key, keys[k]);
    }
  }

  /** The denied set holds the lower-case forms of the listed and the requested keys. */
  lemma {:induction false} DenySetMeans(key: string, extraKeys: seq<string>)
    ensures Lower(key) in DenySet(extraKeys) <==> IsListed(key) || IsOneOf(key, extraKeys)
  {
    NoCapitalsInCredentials();
    NoCapitalsInHandles();
    NoCapitalsElsewhere();
    ListedByLower(key, CREDENTIALS);
    ListedByLower(key, IDENTITY);
    ListedByLower(key, FINANCIAL);
    ListedByLower(key, PERSONAL);
    ListedByLower(key, INTERNAL);
    assert Lower(key) in DefaultScrubKeys() <==> IsListed(key);
    forall k | 0 <= k < |extraKeys| ensures Lower(key) == Lower(extraKeys[k]) <==> SameUpToCase(key, extraKeys[k]) {
      LowerMeans(key, extraKeys[k]);
    }
  }

  /** Listed or requested, and not for tracing. */
  predicate IsSecret(key: string, extraKeys: seq<string>) {
    (IsListed(key) || IsOneOf(key, extraKeys)) && !IsOneOf(key, TRACING)
  }

  /** A key is redacted exactly when it is listed or requested, up to case, and is not a tracing key, up to case. */
  lemma {:induction false} KeyPolicy(key: string, extraKeys: seq<string>)
    ensures Denied(DenySet(extraKeys), key) <==> IsSecret(key, extraKeys)
  {
    DenySetMeans(key, extraKeys);
    NoCapitalsElsewhere();
    ListedByLower(key, TRACING);
    assert Lower(key) in NeverScrubKeys() <==> Lower(key) in TRACING;
  }

  // ---------- What stands under a redacted key ----------

  /** A digit, a letter, a hyphen or an underscore, by code point. */
  predicate IsTokenChar(c: char) {
    48 <= c as int <= 57 || 65 <= c as int <= 90 || 97 <= c as int <= 122 || c as int == 45 || c as int == 95
  }

  /** A non-empty run of such characters. */
  predicate IsSegment(s: string) {
    s != "" && forall i | 0 <= i < |s| :: IsTokenChar(s[i])
  }

  /** Three segments joined by dots. */
  ghost predicate IsToken(s: string) {
    exists a, b, c :: IsSegment(a) && IsSegment(b) && IsSegment(c) && s == a + "." + b + "." + c
  }

  lemma {:induction false} DotsSplit(s: string, i: nat, j: nat)
    requires 0 < i && i + 1 < j < |s| - 1 && s[i] == '.' && s[j] == '.'
    requires forall k | 0 <= k < |s| :: k == i || k == j || UrlSafe(s[k])
    ensures IsToken(s)
  {
    var a, b, c := s[..i], s[i + 1..j], s[j + 1..];
    assert s == a + "." + b + "." + c;
    assert IsSegment(a) && IsSegment(b) && IsSegment(c);
  }

  lemma {:induction false} DotsJoin(s: string, a: string, b: string, c: string)
    requires IsSegment(a) && IsSegment(b) && IsSegment(c) && s == a + "." + b + "." + c
    ensures LooksLikeJwt(s)
  {
    var i, j := |a|, |a| + 1 + |b|;
    assert s[i] == '.' && s[j] == '.';
    forall k | 0 <= k < |s| ensures k == i || k == j || UrlSafe(s[k]) {
      if k < i { assert s[k] == a[k]; }
      else if i < k < j { assert s[k] == b[k - i - 1]; }
      else if j < k { assert s[k] == c[k - j - 1]; }
    }
  }

  lemma {:induction false} TokenMeans(s: string)
    ensures LooksLikeJwt(s) <==> IsToken(s)
  {
    if LooksLikeJwt(s) {
      var i, j :| 0 < i < j < |s| && i + 1 < j < |s| - 1 && s[i] == '.' && s[j] == '.'
        && forall k | 0 <= k < |s| :: k == i || k == j || UrlSafe(s[k]);
      DotsSplit(s, i, j);
    }
    if IsToken(s) {
      var a, b, c :| IsSegment(a) && IsSegment(b) && IsSegment(c) && s == a + "." + b + "." + c;
      DotsJoin(s, a, b, c);
    }
  }

  /** The text starts with the word, up to case. */
  predicate StartsUpToCase(s: string, word: string) {
    |s| >= |word| && SameUpToCase(s[..|word|], word)
  }

  lemma {:induction false} BearerMeans(s: string)
    ensures StartsWithBearer(s) <==> StartsUpToCase(s, "bearer ")
  {
    if |s| >= 7 {
      LowerMeans(s[..7], "bearer ");
      LowerMeans("bearer ", s[..7]);
    }
  }

  /** The redacted form of a value: its kind shows, and of a string whether it is a token or a bearer header. */
  ghost predicate IsRedaction(key: string, v: Value, o: Out) {
    match v
    case Undefined => o == OutUndefined
    case Null => o == OutNull
    case Text(s) =>
      o == OutText(if IsToken(s) then "[REDACTED-JWT]"
                   else if SameUpToCase(key, "authorization") && StartsUpToCase(s, "bearer ") then "Bearer [REDACTED]"
                   else "[REDACTED]")
    case _ => o == OutNull
  }

  lemma {:induction false} RedactionMeans(key: string, v: Value)
    ensures IsRedaction(key, v, ScrubValue(Lower(key), v))
  {
    LowerMeans("authorization", key);
    LowerMeans(key, "authorization");
    if v.Text? {
      TokenMeans(v.s);
      BearerMeans(v.s);
    }
  }

  // ---------- The output, entry by entry ----------

  /** What is left of a value that is not redacted: strings and primitives as they are, objects scrubbed in turn. */
  ghost predicate IsPassedOn(g: Graph, deny: set<string>, v: Value, o: Out) {
    match v
    case Undefined => o == OutUndefined
    case Null => o == OutNull
    case Primitive(n) => o == OutPrimitive(n)
    case Text(s) => o == OutText(s)
    case Object(r) => exists seen: set<Ref> :: o == Scrub(g, Object(r), deny, seen).0
  }

  lemma PassesOn(g: Graph, v: Value, deny: set<string>, seen: set<Ref>)
    ensures IsPassedOn(g, deny, v, Scrub(g, v, deny, seen).0)
  {
  }

  /** One entry of the output: redacted if its key is listed or requested and not a tracing key, passed on otherwise. */
  ghost predicate EntryScrubbed(g: Graph, extraKeys: seq<string>, e: Entry, o: OutEntry) {
    && o.key == e.key
    && if IsSecret(e.key, extraKeys) then IsRedaction(e.key, e.value, o.value)
       else IsPassedOn(g, DenySet(extraKeys), e.value, o.value)
  }

  lemma {:induction false} EntriesScrubbed(g: Graph, entries: seq<Entry>, extraKeys: seq<string>, seen: set<Ref>)
    ensures var outs := ScrubEntries(g, entries, DenySet(extraKeys), seen).0;
      |outs| == |entries| && forall k | 0 <= k < |entries| :: EntryScrubbed(g, extraKeys, entries[k], outs[k])
    decreases |entries|
  {
    if entries != [] {
      var deny, e := DenySet(extraKeys), entries[0];
      KeyPolicy(e.key, extraKeys);
      RedactionMeans(e.key, e.value);
      PassesOn(g, e.value, deny, seen);
      var between := if Denied(deny, e.key) then seen else Scrub(g, e.value, deny, seen).1;
      EntriesScrubbed(g, entries[1..], extraKeys, between);
    }
  }

  lemma {:induction false} ItemsScrubbed(g: Graph, values: seq<Value>, deny: set<string>, seen: set<Ref>)
    ensures var outs := ScrubItems(g, values, deny, seen).0;
      |outs| == |values| && forall k | 0 <= k < |values| :: IsPassedOn(g, deny, values[k], outs[k])
    decreases |values|
  {
    if values != [] {
      PassesOn(g, values[0], deny, seen);
      ItemsScrubbed(g, values[1..], deny, Scrub(g, values[0], deny, seen).1);
    }
  }

  /**
   * Wherever the walk meets an object, for every graph and every choice of extra keys: what is no array or record stays as
   * it is, what was met before is cut short, and otherwise the output has the same items or keys in the same order, each
   * redacted or passed on as its key says.
   */
  lemma {:induction false} ObjectScrubbed(g: Graph, r: Ref, extraKeys: seq<string>, seen: set<Ref>)
    ensures var o := Scrub(g, Object(r), DenySet(extraKeys), seen).0;
      if r !in g || g[r].Opaque? then o == OutOpaque(r)
      else if r in seen then o == OutText("[Circular]")
      else
        match g[r]
        case Items(values) =>
          && o.OutItems? && |o.values| == |values|
          && forall k | 0 <= k < |values| :: IsPassedOn(g, DenySet(extraKeys), values[k], o.values[k])
        case Record(entries) =>
          && o.OutRecord? && |o.entries| == |entries|
          && forall k | 0 <= k < |entries| :: EntryScrubbed(g, extraKeys, entries[k], o.entries[k])
  {
    if r in g && !g[r].Opaque? && r !in seen {
      match g[r]
      case Items(values) => ItemsScrubbed(g, values, DenySet(extraKeys), seen + {r});
      case Record(entries) => EntriesScrubbed(g, entries, extraKeys, seen + {r});
    }
  }

  // ---------- Nothing under a secret key gets through ----------

  predicate Redacted(o: Out) {
    || o.OutUndefined? || o.OutNull?
    || o == OutText("[REDACTED]") || o == OutText("[REDACTED-JWT]") || o == OutText("Bearer [REDACTED]")
  }

  /** At every depth, what stands under a secret key is redacted. */
  predicate Clean(extraKeys: seq<string>, o: Out)
    decreases o
  {
    match o
    case OutItems(values) => forall k | 0 <= k < |values| :: Clean(extraKeys, values[k])
    case OutRecord(entries) => forall k | 0 <= k < |entries| :: EntryClean(extraKeys, entries[k])
    case _ => true
  }

  predicate EntryClean(extraKeys: seq<string>, e: OutEntry)
    decreases e
  {
    if IsSecret(e.key, extraKeys) then Redacted(e.value) else Clean(extraKeys, e.value)
  }

  lemma {:induction false} ScrubIsClean(g: Graph, v: Value, extraKeys: seq<string>, seen: set<Ref>)
    ensures Clean(extraKeys, Scrub(g, v, DenySet(extraKeys), seen).0)
    decreases g.Keys - seen, 0
  {
    if v.Object? && v.r in g && !g[v.r].Opaque? && v.r !in seen {
      assert v.r in g.Keys - seen && v.r !in g.Keys - (seen + {v.r});
      match g[v.r]
      case Items(values) => ItemsClean(g, values, extraKeys, seen + {v.r});
      case Record(entries) => EntriesClean(g, entries, extraKeys, seen + {v.r});
    }
  }

  lemma {:induction false} ItemsClean(g: Graph, values: seq<Value>, extraKeys: seq<string>, seen: set<Ref>)
    ensures forall o | o in ScrubItems(g, values, DenySet(extraKeys), seen).0 :: Clean(extraKeys, o)
    decreases g.Keys - seen, 1 + |values|
  {
    if values != [] {
      ScrubIsClean(g, values[0], extraKeys, seen);
      var between := Scrub(g, values[0], DenySet(extraKeys), seen).1;
      assert g.Keys - between <= g.Keys - seen;
      ItemsClean(g, values[1..], extraKeys, between);
    }
  }

  lemma {:induction false} EntriesClean(g: Graph, entries: seq<Entry>, extraKeys: seq<string>, seen: set<Ref>)
    ensures forall e | e in ScrubEntries(g, entries, DenySet(extraKeys), seen).0 :: EntryClean(extraKeys, e)
    decreases g.Keys - seen, 1 + |entries|
  {
    if entries != [] {
      var deny, e := DenySet(extraKeys), entries[0];
      KeyPolicy(e.key, extraKeys);
      RedactionMeans(e.key, e.value);
      var (out, between) :=
        if Denied(deny, e.key) then (ScrubValue(Lower(e.key), e.value), seen) else Scrub(g, e.value, deny, seen);
      if !Denied(deny, e.key) { ScrubIsClean(g, e.value, extraKeys, seen); }
      assert g.Keys - between <= g.Keys - seen;
      EntriesClean(g, entries[1..], extraKeys, between);
    }
  }

  /**
   * Whatever the graph and the extra keys, at no depth of the output does anything stand under a secret key but
   * undefined, null or a redaction mark.
   */
  lemma {:induction false} OutputClean(g: Graph, root: Value, extraKeys: seq<string>)
    ensures Clean(extraKeys, Scrub(g, root, DenySet(extraKeys), {}).0)
  {
    ScrubIsClean(g, root, extraKeys, {});
  }
}
