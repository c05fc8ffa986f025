/**
 * The camera's event-stream text protocol: the HTTP status line that marks
 * a live connection, and alarm lines `Code=<name>;action=<Start|Stop>;...`
 * whose `;`-separated tokens are `key=value` pairs.
 */
module Protocol {
  import opened Wrappers
  import opened Text

  const StatusLine: string := "HTTP/1.1 200 OK"
  const CodeMarker: string := "Code="
  const LineBreak: string := "\r\n"

  /**
   * Why handling a chunk stopped early: a token that does not unpack into
   * exactly one key and one value (Python's ValueError), or a key the alarm
   * handler looks up and does not find (Python's KeyError).
   */
  datatype Fault = MalformedToken(token: string) | MissingKey(key: string)

  /** A token holds exactly one `=`. */
  predicate WellFormed(token: string)
  {
    multiset(token)['='] == 1
  }

  /** `Key, Value = token.split('=')`: a pair when the token splits into exactly two pieces. */
  function Pair(token: string): Result<(string, string), Fault>
  {
    var kv := Split(token, "=");
    if |kv| == 2 then Ok((kv[0], kv[1])) else Err(MalformedToken(token))
  }

  /** A token unpacks exactly when it holds one `=`. */
  lemma PairOk(token: string)
    ensures Pair(token).Ok? <==> WellFormed(token)
  {
    SplitCount(token, '=');
  }

  /** The key is what stands before the token's `=` and the value what follows; neither holds a `=`. */
  lemma PairParts(token: string)
    requires Pair(token).Ok?
    ensures Pair(token).value.0 + "=" + Pair(token).value.1 == token
    ensures '=' !in Pair(token).value.0 && '=' !in Pair(token).value.1
  {
    var kv := Split(token, "=");
    JoinSplit(token, "=");
    SplitPiecesFree(token, "=");
    FindChar(kv[0], '=');
    FindChar(kv[1], '=');
  }

  /** The key/value map the tokens build, left to right, later keys overwriting earlier ones. */
  function Collect(tokens: seq<string>): Result<map<string, string>, Fault>
    decreases |tokens|
  {
    if tokens == [] then Ok(map[])
    else match Collect(tokens[..|tokens| - 1])
      case Err(e) => Err(e)
      case Ok(m) =>
        match Pair(tokens[|tokens| - 1])
        case Err(e) => Err(e)
        case Ok(kv) => Ok(m[kv.0 := kv.1])
  }

  /** The alarm record of one line. */
  function Fields(line: string): Result<map<string, string>, Fault>
  {
    Collect(Split(line, ";"))
  }

  /** The loop of `OnReceive` that fills the alarm dictionary from one line's tokens. */
  method ParseFields(line: string) returns (r: Result<map<string, string>, Fault>)
    ensures r == Fields(line)
  {
    var tokens := Split(line, ";");
    var alarm: map<string, string> := map[];
    for i := 0 to |tokens|
      invariant Collect(tokens[..i]) == Ok(alarm)
    {
      assert tokens[..i + 1][..i] == tokens[..i];
      var kv := Split(tokens[i], "=");
      if |kv| != 2 {
        CollectStopsAtFault(tokens, i + 1);
        return Err(MalformedToken(tokens[i]));
      }
      alarm := alarm[kv[0] := kv[1]];
    }
    assert tokens[..|tokens|] == tokens;
    return Ok(alarm);
  }

  /** Once a prefix of the tokens has failed, the whole line fails with the same fault. */
  lemma {:induction false} CollectStopsAtFault(tokens: seq<string>, n: nat)
    requires n <= |tokens| && Collect(tokens[..n]).Err?
    ensures Collect(tokens) == Collect(tokens[..n])
    decreases |tokens| - n
  {
    if n == |tokens| {
      assert tokens[..n] == tokens;
    } else {
      assert tokens[..n + 1][..n] == tokens[..n];
      CollectStopsAtFault(tokens, n + 1);
    }
  }

  /** The tokens succeed exactly when every one of them is well formed. */
  lemma {:induction false} CollectOk(tokens: seq<string>)
    ensures Collect(tokens).Ok? <==> forall k :: 0 <= k < |tokens| ==> WellFormed(tokens[k])
    decreases |tokens|
  {
    if tokens != [] {
      var n := |tokens| - 1;
      CollectOk(tokens[..n]);
      assert forall k :: 0 <= k < n ==> tokens[..n][k] == tokens[k];
      PairOk(tokens[n]);
    }
  }

  /** A failing line's fault names its first token that does not unpack, and the tokens before it all do. */
  lemma {:induction false} CollectFirstFault(tokens: seq<string>)
    requires Collect(tokens).Err?
    ensures exists i :: (0 <= i < |tokens| && Pair(tokens[i]).Err? &&
      (forall k :: 0 <= k < i ==> Pair(tokens[k]).Ok?) &&
      Collect(tokens).error == MalformedToken(tokens[i]))
    decreases |tokens|
  {
    var n := |tokens| - 1;
    var init := tokens[..n];
    assert forall k :: 0 <= k < n ==> init[k] == tokens[k];
    if Collect(init).Err? {
      CollectFirstFault(init);
      var i :| 0 <= i < n && Pair(init[i]).Err? &&
        (forall k :: 0 <= k < i ==> Pair(init[k]).Ok?) &&
        Collect(init).error == MalformedToken(init[i]);
      assert Collect(tokens).error == MalformedToken(tokens[i]);
    } else {
      CollectAllPairs(init);
      assert Collect(tokens).error == MalformedToken(tokens[n]);
    }
  }

  /** In a successful record every token unpacked. */
  lemma {:induction false} CollectAllPairs(tokens: seq<string>)
    requires Collect(tokens).Ok?
    ensures forall k :: 0 <= k < |tokens| ==> Pair(tokens[k]).Ok?
    decreases |tokens|
  {
    if tokens != [] {
      var n := |tokens| - 1;
      CollectAllPairs(tokens[..n]);
      assert forall k :: 0 <= k < n ==> tokens[..n][k] == tokens[k];
    }
  }

  /** Token `k` unpacks to `key` and no later token does. */
  predicate LastWith(tokens: seq<string>, key: string, k: int)
  {
    0 <= k < |tokens| && Pair(tokens[k]).Ok? && Pair(tokens[k]).value.0 == key &&
    forall j :: k < j < |tokens| ==> !(Pair(tokens[j]).Ok? && Pair(tokens[j]).value.0 == key)
  }

  /** In a successful record a key is present exactly when some token has it. */
  lemma {:induction false} CollectKeys(tokens: seq<string>, key: string)
    requires Collect(tokens).Ok?
    ensures key in Collect(tokens).value <==>
      exists k :: 0 <= k < |tokens| && Pair(tokens[k]).Ok? && Pair(tokens[k]).value.0 == key
    decreases |tokens|
  {
    CollectAllPairs(tokens);
    if tokens != [] {
      var n := |tokens| - 1;
      var init := tokens[..n];
      CollectKeys(init, key);
      assert forall k :: 0 <= k < n ==> init[k] == tokens[k];
    }
  }

  /** The value of a key in a successful record is the one of the last token with that key. */
  lemma {:induction false} CollectLastWins(tokens: seq<string>, key: string)
    requires Collect(tokens).Ok? && key in Collect(tokens).value
    ensures exists k :: LastWith(tokens, key, k) && Pair(tokens[k]).value.1 == Collect(tokens).value[key]
    decreases |tokens|
  {
    CollectAllPairs(tokens);
    var n := |tokens| - 1;
    var init := tokens[..n];
    if Pair(tokens[n]).value.0 == key {
      assert LastWith(tokens, key, n);
    } else {
      CollectLastWins(init, key);
      var k :| LastWith(init, key, k) && Pair(init[k]).value.1 == Collect(init).value[key];
      assert forall j :: k <= j < n ==> init[j] == tokens[j];
      assert LastWith(tokens, key, k);
    }
  }

  /** Holds neither of the protocol's two delimiters. */
  predicate Plain(s: string)
  {
    ';' !in s && '=' !in s
  }

  /** The tokens `key=value` of a list of pairs. */
  function Tokens(pairs: seq<(string, string)>): (r: seq<string>)
    ensures |r| == |pairs|
    ensures forall i :: 0 <= i < |pairs| ==> r[i] == pairs[i].0 + "=" + pairs[i].1
  {
    seq(|pairs|, i requires 0 <= i < |pairs| => pairs[i].0 + "=" + pairs[i].1)
  }

  /** An alarm line as a camera writes it: `key=value` tokens joined by `;`. */
  function Encode(pairs: seq<(string, string)>): string
  {
    Join(Tokens(pairs), ";")
  }

  /** The dictionary of a list of pairs, later keys overwriting earlier ones. */
  function ToMap(pairs: seq<(string, string)>): map<string, string>
    decreases |pairs|
  {
    if pairs == [] then map[]
    else ToMap(pairs[..|pairs| - 1])[pairs[|pairs| - 1].0 := pairs[|pairs| - 1].1]
  }

  /** A token made of a key, one `=` and a value unpacks to that pair. */
  lemma PairOf(token: string, key: string, value: string)
    requires token == key + "=" + value && '=' !in key && '=' !in value
    ensures Pair(token) == Ok((key, value))
  {
    assert Join([key, value], "=") == token;
    SplitJoin([key, value], "=");
  }

  /** The tokens of delimiter-free pairs collect into the dictionary of the pairs. */
  lemma {:induction false} CollectTokens(pairs: seq<(string, string)>)
    requires forall i :: 0 <= i < |pairs| ==> Plain(pairs[i].0) && Plain(pairs[i].1)
    ensures Collect(Tokens(pairs)) == Ok(ToMap(pairs))
    decreases |pairs|
  {
    if pairs != [] {
      var n := |pairs| - 1;
      CollectTokens(pairs[..n]);
      assert Tokens(pairs)[..n] == Tokens(pairs[..n]);
      PairOf(Tokens(pairs)[n], pairs[n].0, pairs[n].1);
    }
  }

  /**
   * Parsing inverts encoding: a line written from a non-empty list of
   * delimiter-free pairs parses back to the dictionary of those pairs.
   */
  lemma RoundTrip(pairs: seq<(string, string)>)
    requires |pairs| >= 1
    requires forall i :: 0 <= i < |pairs| ==> Plain(pairs[i].0) && Plain(pairs[i].1)
    ensures Fields(Encode(pairs)) == Ok(ToMap(pairs))
  {
    var tokens := Tokens(pairs);
    forall k | 0 <= k < |tokens| ensures ';' !in tokens[k] {
      assert tokens[k] == pairs[k].0 + "=" + pairs[k].1;
    }
    SplitJoin(tokens, ";");
    CollectTokens(pairs);
  }

  /** An encoded line starts with its first `key=value` token. */
  lemma EncodeHead(pairs: seq<(string, string)>)
    requires |pairs| >= 1
    ensures pairs[0].0 + "=" + pairs[0].1 <= Encode(pairs)
  {
    JoinHead(Tokens(pairs), ";");
  }

  /** A line of one pair is that pair's token. */
  lemma EncodeOne(p: (string, string))
    ensures Encode([p]) == p.0 + "=" + p.1
  {
  }

  /** A line of several pairs is the first pair's token, a `;` and the line of the rest. */
  lemma EncodeCons(pairs: seq<(string, string)>)
    requires |pairs| >= 2
    ensures Encode(pairs) == pairs[0].0 + "=" + pairs[0].1 + ";" + Encode(pairs[1..])
  {
    assert Tokens(pairs)[1..] == Tokens(pairs[1..]);
  }

  /** A character in no key, no value and neither delimiter is not in the encoded line. */
  lemma EncodeAvoids(pairs: seq<(string, string)>, c: char)
    requires c != ';' && c != '='
    requires forall i :: 0 <= i < |pairs| ==> c !in pairs[i].0 && c !in pairs[i].1
    ensures c !in Encode(pairs)
  {
    var tokens := Tokens(pairs);
    forall k | 0 <= k < |tokens| ensures c !in tokens[k] {
      assert tokens[k] == pairs[k].0 + "=" + pairs[k].1;
    }
    JoinAvoids(tokens, ";", c);
  }

  /** A line that starts with `Code=` has a first token that starts with `Code=`. */
  lemma FirstTokenIsCode(line: string)
    requires CodeMarker <= line
    ensures CodeMarker <= Split(line, ";")[0]
  {
    FindSpec(line, ";");
    match Find(line, ";")
    case None =>
    case Some(i) =>
      assert line[i..i + 1] == ";";
      assert line[i] == ';';
      assert forall j :: 0 <= j < 5 ==> line[j] == CodeMarker[j] != ';';
  }

  /** A token that starts with `Code=` and unpacks has the key `Code`. */
  lemma CodeTokenKey(token: string)
    requires CodeMarker <= token && Pair(token).Ok?
    ensures Pair(token).value.0 == "Code"
  {
    PairParts(token);
    var kv := Pair(token).value;
    assert forall j :: 0 <= j < |kv.0| ==> token[j] == kv.0[j] != '=';
    assert token[|kv.0|] == '=';
    assert forall j :: 0 <= j < 4 ==> token[j] == CodeMarker[j] != '=';
    assert token[4] == '=';
    assert kv.0 == token[..4] == "Code";
  }

  /** A successfully parsed `Code=` line always carries a `Code` key. */
  lemma CodeLineHasCode(line: string)
    requires CodeMarker <= line && Fields(line).Ok?
    ensures "Code" in Fields(line).value
  {
    var tokens := Split(line, ";");
    FirstTokenIsCode(line);
    CollectAllPairs(tokens);
    CodeTokenKey(tokens[0]);
    CollectKeys(tokens, "Code");
  }
}
