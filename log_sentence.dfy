/**
 * data2sentence.py: a server-log record is flattened into a "log sentence"
 * of `KEY_value` tokens in a fixed grammar order, and that sentence is
 * spliced with a human note into a fixed prompt template.
 */
module LogSentence {
  import opened Text

  /** A value of the log dictionary: a string, an integer, a boolean or `None`. */
  datatype Value = NoneValue | Str(s: string) | Int(n: int) | Bool(b: bool)

  /** A log record: a dictionary from field name to value. */
  type Record = map<string, Value>

  /** The "grammar": the fields reported, in order of importance. */
  const GrammarOrder: seq<string> := ["status", "method", "path", "latency_ms", "user_agent"]

  /** `log_entry.get(key)`: the value, or `None` when the key is absent. */
  function Lookup(r: Record, key: string): Value {
    if key in r then r[key] else NoneValue
  }

  /** A field is reported unless `get` yields `None`. */
  predicate Present(r: Record, key: string) {
    !Lookup(r, key).NoneValue?
  }

  /** `str(value)`, as an f-string renders it. */
  function Show(v: Value): string {
    match v
    case NoneValue => "None"
    case Str(s) => s
    case Int(n) => IntToString(n)
    case Bool(b) => if b then "True" else "False"
  }

  /** The prefix every token of `key` starts with: `KEY_`. */
  function Tag(key: string): string {
    Upper(key) + "_"
  }

  /** `f"{key.upper()}_{value}"`. */
  function Token(key: string, v: Value): string {
    Tag(key) + Show(v)
  }

  /** Every token of a key starts with the key's tag. */
  lemma TokenHasTag(key: string, v: Value)
    ensures Tag(key) <= Token(key, v)
  {
  }

  /** The token a single field contributes: none, or its `KEY_value`. */
  function FieldTokens(r: Record, key: string): seq<string> {
    if Present(r, key) then [Token(key, Lookup(r, key))] else []
  }

  /** The tokens the loop appends when it walks `keys` in order. */
  function Tokens(r: Record, keys: seq<string>): seq<string> {
    if keys == [] then [] else FieldTokens(r, keys[0]) + Tokens(r, keys[1..])
  }

  /** The log sentence of a record: its grammar tokens joined by single spaces. */
  function Encode(r: Record): string {
    Join(Tokens(r, GrammarOrder))
  }

  /**
   * `server_log_to_sentence`: walks the grammar, appends one token per
   * reported field to `sentenceParts`, then joins the parts.
   */
  method ServerLogToSentence(logEntry: Record) returns (sentence: string)
    ensures sentence == Encode(logEntry)
  {
    var grammarOrder := GrammarOrder;
    var sentenceParts: seq<string> := [];
    for i := 0 to |grammarOrder|
      invariant sentenceParts == Tokens(logEntry, grammarOrder[..i])
    {
      var key := grammarOrder[i];
      var value := Lookup(logEntry, key);
      WalkStep(logEntry, grammarOrder, i);
      if !value.NoneValue? {
        sentenceParts := sentenceParts + [Upper(key) + "_" + Show(value)];
      }
    }
    assert grammarOrder[..|grammarOrder|] == grammarOrder;
    sentence := Join(sentenceParts);
  }

  // ---------------------------------------------------------------------
  // Properties of the token sequence
  // ---------------------------------------------------------------------

  /** One step of the walk: the next key's token, if any, goes after those already collected. */
  lemma WalkStep(r: Record, keys: seq<string>, i: nat)
    requires i < |keys|
    ensures Tokens(r, keys[..i + 1]) == Tokens(r, keys[..i]) + FieldTokens(r, keys[i])
  {
    TokensAppend(r, keys[..i], [keys[i]]);
    assert keys[..i + 1] == keys[..i] + [keys[i]];
    assert [keys[i]][1..] == [];
    assert Tokens(r, [keys[i]]) == FieldTokens(r, keys[i]) + [];
  }

  /** The grammar is walked left to right: tokens of a prefix precede those of the rest. */
  lemma {:induction false} TokensAppend(r: Record, a: seq<string>, b: seq<string>)
    ensures Tokens(r, a + b) == Tokens(r, a) + Tokens(r, b)
  {
    if a == [] {
      assert a + b == b;
    } else {
      assert (a + b)[1..] == a[1..] + b;
      TokensAppend(r, a[1..], b);
    }
  }

  /** Every reported field contributes its `KEY_value` token. */
  lemma {:induction false} PresentKeyHasToken(r: Record, keys: seq<string>, i: nat)
    requires i < |keys| && Present(r, keys[i])
    ensures Token(keys[i], Lookup(r, keys[i])) in Tokens(r, keys)
  {
    if i > 0 {
      PresentKeyHasToken(r, keys[1..], i - 1);
    }
  }

  /** Every token is the `KEY_value` token of some reported field of the walk. */
  lemma {:induction false} TokenComesFromPresentKey(r: Record, keys: seq<string>, t: string)
    requires t in Tokens(r, keys)
    ensures exists k :: k in keys && Present(r, k) && t == Token(k, Lookup(r, k))
  {
    if t !in Tokens(r, keys[1..]) {
      assert Present(r, keys[0]) && t == Token(keys[0], Lookup(r, keys[0]));
    } else {
      TokenComesFromPresentKey(r, keys[1..], t);
      var k :| k in keys[1..] && Present(r, k) && t == Token(k, Lookup(r, k));
      assert k in keys;
    }
  }

  /**
   * Token order follows the grammar order: a reported field earlier in the
   * walk has its token strictly before that of a reported field later on.
   */
  lemma TokensFollowKeyOrder(r: Record, keys: seq<string>, i: nat, j: nat)
    requires i < j < |keys| && Present(r, keys[i]) && Present(r, keys[j])
    ensures exists a, b :: (0 <= a < b < |Tokens(r, keys)|
      && Tokens(r, keys)[a] == Token(keys[i], Lookup(r, keys[i]))
      && Tokens(r, keys)[b] == Token(keys[j], Lookup(r, keys[j])))
  {
    var front, back := keys[..j], keys[j..];
    assert keys == front + back;
    TokensAppend(r, front, back);
    PresentKeyHasToken(r, front, i);
    var ts := Tokens(r, keys);
    var a :| 0 <= a < |Tokens(r, front)| && Tokens(r, front)[a] == Token(keys[i], Lookup(r, keys[i]));
    assert ts[a] == Tokens(r, front)[a];
    assert ts[|Tokens(r, front)|] == Tokens(r, back)[0];
  }

  /** The tokens depend only on the values `get` yields for the walked keys. */
  lemma {:induction false} TokensDependOnlyOnKeys(r1: Record, r2: Record, keys: seq<string>)
    requires forall k :: k in keys ==> Lookup(r1, k) == Lookup(r2, k)
    ensures Tokens(r1, keys) == Tokens(r2, keys)
  {
    if keys != [] {
      TokensDependOnlyOnKeys(r1, r2, keys[1..]);
    }
  }

  /** How many parts start with the given tag. */
  function CountTagged(parts: seq<string>, tag: string): nat {
    if parts == [] then 0
    else (if tag <= parts[0] then 1 else 0) + CountTagged(parts[1..], tag)
  }

  /**
   * When the walked keys are distinct and no other key shares the initial
   * of `key`, exactly the reported occurrence of `key` yields a token
   * tagged `KEY_`.
   */
  lemma {:induction false} CountTaggedTokens(r: Record, keys: seq<string>, key: string)
    requires key != []
    requires forall m, n :: 0 <= m < n < |keys| ==> keys[m] != keys[n]
    requires forall k :: k in keys && k != key ==> k != [] && UpperChar(k[0]) != UpperChar(key[0])
    ensures CountTagged(Tokens(r, keys), Tag(key)) == if key in keys && Present(r, key) then 1 else 0
  {
    if keys != [] {
      var k := keys[0];
      assert forall k' :: k' in keys[1..] ==> k' in keys;
      CountTaggedTokens(r, keys[1..], key);
      assert key in keys[1..] ==> key != k;
      var rest := Tokens(r, keys[1..]);
      if !Present(r, k) {
        assert Tokens(r, keys) == [] + rest == rest;
      } else {
        var t := Token(k, Lookup(r, k));
        assert Tokens(r, keys) == [t] + rest;
        CountTaggedCons(t, rest, Tag(key));
        if k != key {
          OtherInitialUntagged(k, Lookup(r, k), key);
        } else {
          TokenHasTag(k, Lookup(r, k));
        }
      }
    }
  }

  lemma CountTaggedCons(t: string, rest: seq<string>, tag: string)
    ensures CountTagged([t] + rest, tag) == (if tag <= t then 1 else 0) + CountTagged(rest, tag)
  {
    assert ([t] + rest)[1..] == rest;
  }

  /** A token of a key with another initial letter never carries `key`'s tag. */
  lemma OtherInitialUntagged(k: string, v: Value, key: string)
    requires k != [] && key != [] && UpperChar(k[0]) != UpperChar(key[0])
    ensures !(Tag(key) <= Token(k, v))
  {
    assert Token(k, v)[0] == UpperChar(k[0]) && Tag(key)[0] == UpperChar(key[0]);
  }

  // ---------------------------------------------------------------------
  // Properties of the log sentence
  // ---------------------------------------------------------------------

  /**
   * A grammar field that is missing or `None` contributes no token; every
   * other grammar field contributes exactly one, and it is `KEY_value`.
   */
  lemma GrammarFieldContributesOnce(r: Record, key: string)
    requires key in GrammarOrder
    ensures CountTagged(Tokens(r, GrammarOrder), Tag(key)) == if Present(r, key) then 1 else 0
    ensures Present(r, key) <==> Token(key, Lookup(r, key)) in Tokens(r, GrammarOrder)
  {
    CountTaggedTokens(r, GrammarOrder, key);
    if Present(r, key) {
      var i :| 0 <= i < |GrammarOrder| && GrammarOrder[i] == key;
      PresentKeyHasToken(r, GrammarOrder, i);
    } else if Token(key, Lookup(r, key)) in Tokens(r, GrammarOrder) {
      TokenHasTag(key, Lookup(r, key));
      TaggedMemberCounts(Tokens(r, GrammarOrder), Token(key, Lookup(r, key)), Tag(key));
    }
  }

  lemma {:induction false} TaggedMemberCounts(parts: seq<string>, t: string, tag: string)
    requires t in parts && tag <= t
    ensures CountTagged(parts, tag) >= 1
  {
    if parts[0] != t {
      TaggedMemberCounts(parts[1..], t, tag);
    }
  }

  /** Tokens are in grammar order whatever the record: status, method, path, latency_ms, user_agent. */
  lemma SentenceFollowsGrammar(r: Record, i: nat, j: nat)
    requires i < j < |GrammarOrder|
    requires Present(r, GrammarOrder[i]) && Present(r, GrammarOrder[j])
    ensures exists a, b :: (0 <= a < b < |Tokens(r, GrammarOrder)|
      && Tokens(r, GrammarOrder)[a] == Token(GrammarOrder[i], Lookup(r, GrammarOrder[i]))
      && Tokens(r, GrammarOrder)[b] == Token(GrammarOrder[j], Lookup(r, GrammarOrder[j])))
  {
    TokensFollowKeyOrder(r, GrammarOrder, i, j);
  }

  /** Every token of the sentence belongs to a reported grammar field. */
  lemma SentenceTokensFromGrammar(r: Record, t: string)
    requires t in Tokens(r, GrammarOrder)
    ensures exists k :: k in GrammarOrder && Present(r, k) && t == Token(k, Lookup(r, k))
  {
    TokenComesFromPresentKey(r, GrammarOrder, t);
  }

  /** The sentence reads only the grammar fields: other keys such as `timestamp` never matter. */
  lemma EncodeIgnoresOtherKeys(r: Record, key: string, v: Value)
    requires key !in GrammarOrder
    ensures Encode(r[key := v]) == Encode(r)
    ensures Encode(r - {key}) == Encode(r)
  {
    TokensDependOnlyOnKeys(r[key := v], r, GrammarOrder);
    TokensDependOnlyOnKeys(r - {key}, r, GrammarOrder);
  }

  /** Two records that agree on the grammar fields have the same sentence. */
  lemma EncodeDependsOnlyOnGrammar(r1: Record, r2: Record)
    requires forall k :: k in GrammarOrder ==> Lookup(r1, k) == Lookup(r2, k)
    ensures Encode(r1) == Encode(r2)
  {
    TokensDependOnlyOnKeys(r1, r2, GrammarOrder);
  }

  /** Tokens are never empty: each starts with its tag. */
  lemma {:induction false} TokensNonEmpty(r: Record, keys: seq<string>)
    ensures forall m :: 0 <= m < |Tokens(r, keys)| ==> Tokens(r, keys)[m] != []
  {
    if keys != [] {
      TokensNonEmpty(r, keys[1..]);
    }
  }

  /** The sentence is empty exactly when no grammar field is reported. */
  lemma EncodeEmptyIff(r: Record)
    ensures Encode(r) == "" <==> forall k :: k in GrammarOrder ==> !Present(r, k)
  {
    JoinTokensEmptyIff(r, GrammarOrder);
  }

  lemma JoinTokensEmptyIff(r: Record, keys: seq<string>)
    ensures Join(Tokens(r, keys)) == "" <==> forall k :: k in keys ==> !Present(r, k)
  {
    var ts := Tokens(r, keys);
    TokensNonEmpty(r, keys);
    JoinEmptyIff(ts);
    if ts != [] {
      TokenComesFromPresentKey(r, keys, ts[0]);
    }
    if exists k :: k in keys && Present(r, k) {
      var k :| k in keys && Present(r, k);
      var i :| 0 <= i < |keys| && keys[i] == k;
      PresentKeyHasToken(r, keys, i);
    }
  }

  /** A non-empty sentence starts with its first token and ends with its last. */
  lemma EncodeEnds(r: Record)
    requires Tokens(r, GrammarOrder) != []
    ensures var ts := Tokens(r, GrammarOrder);
      ts[0] <= Encode(r) && |ts[|ts| - 1]| <= |Encode(r)|
      && Encode(r)[|Encode(r)| - |ts[|ts| - 1]|..] == ts[|ts| - 1]
  {
    JoinEnds(Tokens(r, GrammarOrder));
  }

  /**
   * When no value holds a space, splitting the sentence at single spaces
   * gives back exactly the tokens: one separator between tokens, none
   * around them.
   */
  lemma EncodeSplitsIntoTokens(r: Record)
    requires Tokens(r, GrammarOrder) != []
    requires forall k :: k in GrammarOrder ==> ' ' !in Show(Lookup(r, k))
    ensures Split(Encode(r)) == Tokens(r, GrammarOrder)
  {
    GrammarTagsHaveNoSpace();
    JoinTokensSplit(r, GrammarOrder);
  }

  /** Without spaces in tags and values, splitting the joined tokens recovers them. */
  lemma JoinTokensSplit(r: Record, keys: seq<string>)
    requires Tokens(r, keys) != []
    requires forall k :: k in keys ==> ' ' !in Tag(k)
    requires forall k :: k in keys ==> ' ' !in Show(Lookup(r, k))
    ensures Split(Join(Tokens(r, keys))) == Tokens(r, keys)
  {
    var ts := Tokens(r, keys);
    forall m | 0 <= m < |ts|
      ensures ' ' !in ts[m]
    {
      TokenComesFromPresentKey(r, keys, ts[m]);
      var k :| k in keys && Present(r, k) && ts[m] == Token(k, Lookup(r, k));
      assert ' ' !in Tag(k) + Show(Lookup(r, k));
    }
    SplitJoin(ts);
  }

  lemma GrammarTagsHaveNoSpace()
    ensures forall k :: k in GrammarOrder ==> ' ' !in Tag(k)
  {
    forall k | k in GrammarOrder
      ensures ' ' !in Tag(k)
    {
      GrammarTagHasNoSpace(k);
    }
  }

  lemma GrammarTagHasNoSpace(k: string)
    requires k in GrammarOrder
    ensures ' ' !in Tag(k)
  {
    assert forall i :: 0 <= i < |k| ==> k[i] != ' ';
    var t := Tag(k);
    assert forall i :: 0 <= i < |t| ==> t[i] != ' ' by {
      forall i | 0 <= i < |t| ensures t[i] != ' ' {
        if i < |k| {
          assert t[i] == Upper(k)[i] == UpperChar(k[i]);
        }
      }
    }
  }

  // ---------------------------------------------------------------------
  // The grammar written out
  // ---------------------------------------------------------------------

  /** The walk over the grammar, field by field. */
  lemma GrammarTokens(r: Record)
    ensures Tokens(r, GrammarOrder) == FieldTokens(r, "status") + (FieldTokens(r, "method")
      + (FieldTokens(r, "path") + (FieldTokens(r, "latency_ms") + FieldTokens(r, "user_agent"))))
  {
    var g0 := GrammarOrder;
    var g1 := g0[1..];
    var g2 := g1[1..];
    var g3 := g2[1..];
    var g4 := g3[1..];
    assert g4[1..] == [];
    assert Tokens(r, g4) == FieldTokens(r, "user_agent") + [];
    assert FieldTokens(r, "user_agent") + [] == FieldTokens(r, "user_agent");
    assert Tokens(r, g3) == FieldTokens(r, "latency_ms") + Tokens(r, g4);
    assert Tokens(r, g2) == FieldTokens(r, "path") + Tokens(r, g3);
    assert Tokens(r, g1) == FieldTokens(r, "method") + Tokens(r, g2);
    assert Tokens(r, g0) == FieldTokens(r, "status") + Tokens(r, g1);
  }

  lemma TagStatus()
    ensures Tag("status") == "STATUS_"
  {
    UpperStatus();
  }

  lemma UpperStatus()
    ensures Upper("status") == "STATUS"
  {
    UpperWord("status", "STATUS");
  }

  lemma TagMethod()
    ensures Tag("method") == "METHOD_"
  {
    UpperMethod();
  }

  lemma UpperMethod()
    ensures Upper("method") == "METHOD"
  {
    UpperWord("method", "METHOD");
  }

  lemma TagPath()
    ensures Tag("path") == "PATH_"
  {
    UpperPath();
  }

  lemma UpperPath()
    ensures Upper("path") == "PATH"
  {
    UpperWord("path", "PATH");
  }

  lemma TagLatencyMs()
    ensures Tag("latency_ms") == "LATENCY_MS_"
  {
    UpperLatencyMs();
  }

  lemma UpperLatencyMs()
    ensures Upper("latency_ms") == "LATENCY_MS"
  {
    UpperWord("latency_ms", "LATENCY_MS");
  }

  lemma TagUserAgent()
    ensures Tag("user_agent") == "USER_AGENT_"
  {
    UpperUserAgent();
  }

  lemma UpperUserAgent()
    ensures Upper("user_agent") == "USER_AGENT"
  {
    UpperWord("user_agent", "USER_AGENT");
  }

  // ---------------------------------------------------------------------
  // The sample record of the script
  // ---------------------------------------------------------------------

  /** `raw_log`: the five grammar fields plus a `timestamp`. */
  function SampleLog(): Record {
    map[
      "timestamp" := Str("2025-10-26T10:00:05Z"),
      "method" := Str("GET"),
      "path" := Str("/api/v1/user/settings"),
      "status" := Int(403),
      "latency_ms" := Int(150),
      "user_agent" := Str("Python-requests/2.25.1")
    ]
  }

  /** The sample record's sentence, token by token, joined by single spaces. */
  lemma SampleLogSentence()
    ensures Encode(SampleLog()) == ("STATUS_" + "403") + " " + ("METHOD_" + "GET") + " " + ("PATH_" + "/api/v1/user/settings")
      + " " + ("LATENCY_MS_" + "150") + " " + ("USER_AGENT_" + "Python-requests/2.25.1")
  {
    var r := SampleLog();
    assert Lookup(r, "status") == Int(403) && Lookup(r, "method") == Str("GET");
    assert Lookup(r, "path") == Str("/api/v1/user/settings") && Lookup(r, "latency_ms") == Int(150);
    assert Lookup(r, "user_agent") == Str("Python-requests/2.25.1");
    FullRecordSentence(r);
  }

  /**
   * Any record whose five grammar fields are those of the sample, whatever
   * else it holds, has the sample's sentence.
   */
  lemma FullRecordSentence(r: Record)
    requires Lookup(r, "status") == Int(403) && Lookup(r, "method") == Str("GET")
    requires Lookup(r, "path") == Str("/api/v1/user/settings") && Lookup(r, "latency_ms") == Int(150)
    requires Lookup(r, "user_agent") == Str("Python-requests/2.25.1")
    ensures Encode(r) == ("STATUS_" + "403") + " " + ("METHOD_" + "GET") + " " + ("PATH_" + "/api/v1/user/settings")
      + " " + ("LATENCY_MS_" + "150") + " " + ("USER_AGENT_" + "Python-requests/2.25.1")
  {
    GrammarTokens(r);
    var a, b, c, d, e := "STATUS_" + "403", "METHOD_" + "GET", "PATH_" + "/api/v1/user/settings", "LATENCY_MS_" + "150",
      "USER_AGENT_" + "Python-requests/2.25.1";
    assert FieldTokens(r, "status") == [a] by { TokenStatus403(); }
    assert FieldTokens(r, "method") == [b] by { TokenMethodGet(); }
    assert FieldTokens(r, "path") == [c] by { TokenPathSettings(); }
    assert FieldTokens(r, "latency_ms") == [d] by { TokenLatency150(); }
    assert FieldTokens(r, "user_agent") == [e] by { TokenUserAgentRequests(); }
    SingletonsFive(a, b, c, d, e);
    JoinFive(a, b, c, d, e);
  }

  /** A record with only status and method: the other grammar fields are skipped. */
  lemma PartialLogSentence()
    ensures Encode(map["status" := Int(403), "method" := Str("GET")]) == ("STATUS_" + "403") + " " + ("METHOD_" + "GET")
  {
    var r := map["status" := Int(403), "method" := Str("GET")];
    assert Lookup(r, "status") == Int(403) && Lookup(r, "method") == Str("GET");
    assert !Present(r, "path") && !Present(r, "latency_ms") && !Present(r, "user_agent");
    StatusMethodSentence(r);
  }

  lemma StatusMethodSentence(r: Record)
    requires Lookup(r, "status") == Int(403) && Lookup(r, "method") == Str("GET")
    requires !Present(r, "path") && !Present(r, "latency_ms") && !Present(r, "user_agent")
    ensures Encode(r) == ("STATUS_" + "403") + " " + ("METHOD_" + "GET")
  {
    TokenStatus403();
    TokenMethodGet();
    TwoFieldSentence(r, "STATUS_" + "403", "METHOD_" + "GET");
  }

  /** With only status and method present, the sentence is their two tokens. */
  lemma TwoFieldSentence(r: Record, a: string, b: string)
    requires FieldTokens(r, "status") == [a] && FieldTokens(r, "method") == [b]
    requires !Present(r, "path") && !Present(r, "latency_ms") && !Present(r, "user_agent")
    ensures Encode(r) == a + " " + b
  {
    GrammarTokens(r);
    assert FieldTokens(r, "path") == [] && FieldTokens(r, "latency_ms") == [] && FieldTokens(r, "user_agent") == [];
    var none: seq<string> := [];
    assert none + (none + none) == [];
    assert [b] + [] == [b];
    assert Tokens(r, GrammarOrder) == [a] + [b] == [a, b];
    JoinTwo(a, b);
  }

  lemma TokenStatus403()
    ensures Token("status", Int(403)) == "STATUS_" + "403"
  {
    TagStatus();
    Show403();
    TokenOfParts("status", Int(403), "STATUS_", "403");
  }

  lemma TokenMethodGet()
    ensures Token("method", Str("GET")) == "METHOD_" + "GET"
  {
    TagMethod();
    TokenOfParts("method", Str("GET"), "METHOD_", "GET");
  }

  lemma TokenPathSettings()
    ensures Token("path", Str("/api/v1/user/settings")) == "PATH_" + "/api/v1/user/settings"
  {
    TagPath();
    TokenOfParts("path", Str("/api/v1/user/settings"), "PATH_", "/api/v1/user/settings");
  }

  lemma TokenLatency150()
    ensures Token("latency_ms", Int(150)) == "LATENCY_MS_" + "150"
  {
    TagLatencyMs();
    Show150();
    TokenOfParts("latency_ms", Int(150), "LATENCY_MS_", "150");
  }

  /** A token is its key's tag followed by its value as shown. */
  lemma TokenOfParts(key: string, v: Value, tag: string, shown: string)
    requires Tag(key) == tag && Show(v) == shown
    ensures Token(key, v) == tag + shown
  {
  }

  lemma TokenUserAgentRequests()
    ensures Token("user_agent", Str("Python-requests/2.25.1")) == "USER_AGENT_" + "Python-requests/2.25.1"
  {
    TagUserAgent();
    TokenOfParts("user_agent", Str("Python-requests/2.25.1"), "USER_AGENT_", "Python-requests/2.25.1");
  }

  lemma SingletonsFive<T>(a: T, b: T, c: T, d: T, e: T)
    ensures [a] + ([b] + ([c] + ([d] + [e]))) == [a, b, c, d, e]
  {
  }

  lemma JoinTwo(a: string, b: string)
    ensures Join([a, b]) == a + " " + b
  {
    assert [a, b][1..] == [b];
  }

  lemma JoinFive(a: string, b: string, c: string, d: string, e: string)
    ensures Join([a, b, c, d, e]) == a + " " + b + " " + c + " " + d + " " + e
  {
    var p := [a, b, c, d, e];
    assert p[1..] == [b, c, d, e] && p[1..][1..] == [c, d, e];
    assert p[1..][1..][1..] == [d, e] && p[1..][1..][1..][1..] == [e];
    assert Join([d, e]) == d + " " + e;
    assert Join([c, d, e]) == c + " " + (d + " " + e);
    assert Join([b, c, d, e]) == b + " " + (c + " " + (d + " " + e));
    assert Join(p) == a + " " + (b + " " + (c + " " + (d + " " + e)));
  }

  lemma Show403()
    ensures Show(Int(403)) == "403"
  {
    assert NatToString(4) == "4";
    assert NatToString(40) == "40";
  }

  lemma Show150()
    ensures Show(Int(150)) == "150"
  {
    assert NatToString(1) == "1";
    assert NatToString(15) == "15";
  }

  // ---------------------------------------------------------------------
  // `create_multimodal_prompt`
  // ---------------------------------------------------------------------

  const PromptHead: string := "\n    Analyze the following server request.\n\n    **Human Context:** \""
  const PromptMiddle: string := "\"\n\n    **Log Sentence:** \""
  const PromptTail: string :=
    "\"\n\n    Based on both the human context and the log sentence, what is the likely user intent and should we be concerned?\n    "

  /** The f-string template, with the human context and then the log sentence spliced in verbatim. */
  function CreateMultimodalPrompt(logSentence: string, humanContext: string): (prompt: string) {
    PromptHead + humanContext + PromptMiddle + logSentence + PromptTail
  }

  /**
   * The prompt holds the human context and the log sentence verbatim, the
   * context first, framed by the fixed template.
   */
  lemma PromptContainsBothInOrder(logSentence: string, humanContext: string)
    ensures var prompt := CreateMultimodalPrompt(logSentence, humanContext);
      exists i, j :: i + |humanContext| <= j
        && OccursAt(prompt, humanContext, i) && OccursAt(prompt, logSentence, j)
    ensures var prompt := CreateMultimodalPrompt(logSentence, humanContext);
      Contains(prompt, humanContext) && Contains(prompt, logSentence)
    ensures var prompt := CreateMultimodalPrompt(logSentence, humanContext);
      PromptHead <= prompt
      && |prompt| == |PromptHead| + |humanContext| + |PromptMiddle| + |logSentence| + |PromptTail|
      && prompt[|prompt| - |PromptTail|..] == PromptTail
  {
    var prompt := CreateMultimodalPrompt(logSentence, humanContext);
    var i := |PromptHead|;
    var j := i + |humanContext| + |PromptMiddle|;
    assert prompt[i..i + |humanContext|] == humanContext;
    assert prompt[j..j + |logSentence|] == logSentence;
    assert OccursAt(prompt, humanContext, i) && OccursAt(prompt, logSentence, j);
  }
}
