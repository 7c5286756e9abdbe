/**
 * The `partial_versions` field of a top-level submission: a comma-separated
 * list of `<version>build<number>` tokens, turned into the version ->
 * build-number map that every creation request carries as `partialUpdates`.
 */
module PartialVersions {
  import opened JsonValues
  import opened Strings

  /** The parsed field: each partial version with its build number. */
  type Partials = map<string, string>

  /**
   * One token: stripped of surrounding whitespace and unpacked into the two
   * pieces around `"build"`. Anything but exactly two pieces raises.
   */
  function ParseToken(token: string): (r: Result<(string, string)>)
    ensures r.Ok? ==>
      && Strip(token) == r.value.0 + "build" + r.value.1
      && !Contains(r.value.0, "build") && !Contains(r.value.1, "build")
    ensures r.Err? ==> r.error == BadPartialVersion(Strip(token))
  {
    var v := Strip(token);
    var parts := Split(v, "build");
    if |parts| == 2 then
      assert Join(parts, "build") == parts[0] + "build" + parts[1];
      Ok((parts[0], parts[1]))
    else Err(BadPartialVersion(v))
  }

  lemma BuildIsHeadUnique()
    ensures HeadUnique("build")
  {
  }

  /**
   * Every well-formed token is accepted and gives its two halves back:
   * a version and a build number that do not contain `"build"`, and that do
   * not start or end the token with whitespace.
   */
  lemma ParseTokenRoundTrip(version: string, number: string)
    requires !Contains(version, "build") && !Contains(number, "build")
    requires version == [] || !IsSpace(version[0])
    requires number == [] || !IsSpace(number[|number| - 1])
    ensures ParseToken(version + "build" + number) == Ok((version, number))
  {
    var token := version + "build" + number;
    assert token[0] == if version == [] then 'b' else version[0];
    assert token[|token| - 1] == if number == [] then 'd' else number[|number| - 1];
    TokenCharNotSpace('b');
    TokenCharNotSpace('d');
    StripUnpadded(token);
    BuildIsHeadUnique();
    SplitJoin([version, number], "build");
    assert Join([version, number], "build") == token by {
      assert [version, number][1..] == [number];
    }
  }

  /**
   * A token parser. The core uses `ParseToken`; the loop's properties below
   * hold for any parser.
   */
  type Parser = string -> Result<(string, string)>

  /**
   * The partials of the first `|tokens|` tokens, as the loop leaves them:
   * the first token that does not parse raises, and a version seen again
   * overwrites the earlier build number.
   */
  function Collect(tokens: seq<string>, parse: Parser): (r: Result<Partials>)
    ensures tokens == [] ==> r == Ok(map[])
    ensures r.Ok? ==> |r.value| <= |tokens|
    decreases |tokens|
  {
    if tokens == [] then Ok(map[])
    else
      var partials :- Collect(tokens[..|tokens| - 1], parse);
      var entry :- parse(tokens[|tokens| - 1]);
      Ok(partials[entry.0 := entry.1])
  }

  /** The parsed partials, or the exception raised while parsing them. */
  function PartialVersionsOf(payload: Dict): (r: Result<Partials>)
    ensures !Truthy(GetOr(payload, "partial_versions", JNull)) ==> r == Ok(map[])
    ensures Truthy(GetOr(payload, "partial_versions", JNull)) && !payload["partial_versions"].JStr? ==>
            r == Err(WrongType("partial_versions"))
  {
    var raw := GetOr(payload, "partial_versions", JNull);
    if !Truthy(raw) then Ok(map[])
    else if !raw.JStr? then Err(WrongType("partial_versions"))
    else Collect(Split(raw.s, ","), ParseToken)
  }

  /**
   * The parsing loop of `submit_toplevel`: the tokens are handled in order
   * and each one is entered into `partials` as it is parsed.
   */
  method ParsePartialVersions(payload: Dict) returns (r: Result<Partials>)
    ensures r == PartialVersionsOf(payload)
  {
    var raw := GetOr(payload, "partial_versions", JNull);
    if !Truthy(raw) {
      return Ok(map[]);
    }
    if !raw.JStr? {
      return Err(WrongType("partial_versions"));
    }
    var tokens := Split(raw.s, ",");
    var partials: Partials := map[];
    var i := 0;
    while i < |tokens|
      invariant 0 <= i <= |tokens|
      invariant Collect(tokens[..i], ParseToken) == Ok(partials)
    {
      var entry := ParseToken(tokens[i]);
      CollectStep(tokens, ParseToken, i, partials);
      if entry.Err? {
        return Err(entry.error);
      }
      partials := partials[entry.value.0 := entry.value.1];
      i := i + 1;
    }
    assert tokens[..i] == tokens;
    return Ok(partials);
  }

  /** One turn of the parsing loop: the next token either raises or enters its pair. */
  lemma CollectStep(tokens: seq<string>, parse: Parser, i: nat, partials: Partials)
    requires i < |tokens| && Collect(tokens[..i], parse) == Ok(partials)
    ensures parse(tokens[i]).Err? ==> Collect(tokens, parse) == Err(parse(tokens[i]).error)
    ensures parse(tokens[i]).Ok? ==>
      Collect(tokens[..i + 1], parse) == Ok(partials[parse(tokens[i]).value.0 := parse(tokens[i]).value.1])
  {
    assert tokens[..i + 1][..i] == tokens[..i];
    assert tokens[..i + 1][i] == tokens[i];
    if parse(tokens[i]).Err? {
      CollectStopsAtError(tokens, parse, i + 1);
    }
  }

  /** Once a prefix of the tokens raises, the whole list raises the same exception. */
  lemma {:induction false} CollectStopsAtError(tokens: seq<string>, parse: Parser, i: nat)
    requires i <= |tokens| && Collect(tokens[..i], parse).Err?
    ensures Collect(tokens, parse) == Collect(tokens[..i], parse)
    decreases |tokens| - i
  {
    if i < |tokens| {
      var next := tokens[..i + 1];
      assert next[..i] == tokens[..i];
      CollectStopsAtError(tokens, parse, i + 1);
    } else {
      assert tokens[..i] == tokens;
    }
  }

  /** The loop succeeds exactly when every token parses. */
  lemma {:induction false} CollectOk(tokens: seq<string>, parse: Parser)
    ensures Collect(tokens, parse).Ok? <==> forall k :: 0 <= k < |tokens| ==> parse(tokens[k]).Ok?
    decreases |tokens|
  {
    if tokens != [] {
      var n := |tokens| - 1;
      CollectOk(tokens[..n], parse);
      assert forall k :: 0 <= k < n ==> tokens[..n][k] == tokens[k];
    }
  }

  /** Every parsed version is a key of the result, and every key is a parsed version. */
  lemma {:induction false} CollectKeys(tokens: seq<string>, parse: Parser)
    requires Collect(tokens, parse).Ok?
    ensures forall k :: 0 <= k < |tokens| ==> parse(tokens[k]).Ok?
    ensures forall k :: 0 <= k < |tokens| ==> parse(tokens[k]).value.0 in Collect(tokens, parse).value
    ensures forall v :: v in Collect(tokens, parse).value ==>
      exists k :: 0 <= k < |tokens| && parse(tokens[k]).value.0 == v
    decreases |tokens|
  {
    CollectOk(tokens, parse);
    if tokens != [] {
      var n := |tokens| - 1;
      var init := tokens[..n];
      CollectKeys(init, parse);
      assert forall k :: 0 <= k < n ==> init[k] == tokens[k];
      var m := Collect(tokens, parse).value;
      var last := parse(tokens[n]).value;
      assert m == Collect(init, parse).value[last.0 := last.1];
      forall v | v in m
        ensures exists k :: 0 <= k < |tokens| && parse(tokens[k]).value.0 == v
      {
        if v == last.0 {
          assert parse(tokens[n]).value.0 == v;
        } else {
          var k :| 0 <= k < n && parse(init[k]).value.0 == v;
          assert parse(tokens[k]).value.0 == v;
        }
      }
    }
  }

  /** A repeated version keeps the build number of its last token. */
  lemma {:induction false} CollectLastWins(tokens: seq<string>, parse: Parser, k: nat)
    requires Collect(tokens, parse).Ok? && k < |tokens| && LastOf(tokens, parse, k)
    ensures parse(tokens[k]).Ok? && parse(tokens[k]).value.0 in Collect(tokens, parse).value
    ensures Collect(tokens, parse).value[parse(tokens[k]).value.0] == parse(tokens[k]).value.1
    decreases |tokens|
  {
    CollectKeys(tokens, parse);
    var n := |tokens| - 1;
    var init := tokens[..n];
    if k < n {
      assert init[k] == tokens[k];
      assert LastOf(init, parse, k);
      CollectLastWins(init, parse, k);
    }
  }

  /**
   * No token after `k` names the same version as token `k`: when every token
   * parses, token `k` is the last one for its version.
   */
  ghost predicate LastOf(tokens: seq<string>, parse: Parser, k: int)
    requires 0 <= k < |tokens|
  {
    forall k' :: k < k' < |tokens| ==>
      parse(tokens[k']).Ok? && parse(tokens[k]).Ok? &&
      parse(tokens[k']).value.0 != parse(tokens[k]).value.0
  }

  /** The first token that does not parse decides the exception. */
  lemma {:induction false} CollectFirstError(tokens: seq<string>, parse: Parser, k: nat)
    requires k < |tokens| && parse(tokens[k]).Err?
    requires forall j :: 0 <= j < k ==> parse(tokens[j]).Ok?
    ensures Collect(tokens, parse) == Err(parse(tokens[k]).error)
  {
    var prefix := tokens[..k + 1];
    assert prefix[..k] == tokens[..k];
    CollectOk(tokens[..k], parse);
    assert forall j :: 0 <= j < k ==> tokens[..k][j] == tokens[j];
    CollectStopsAtError(tokens, parse, k + 1);
  }

  /** `{"buildNumber": N}` for each partial version, as the creation request carries it. */
  function PartialsJson(partials: Partials): (r: Json)
    ensures r.JObj? && r.fields.Keys == partials.Keys
    ensures forall v :: v in partials ==> r.fields[v] == JObj(map["buildNumber" := JStr(partials[v])])
  {
    JObj(map v | v in partials :: JObj(map["buildNumber" := JStr(partials[v])]))
  }

  /** The example of the documentation: two tokens, the second after a space. */
  lemma PartialVersionsExample(payload: Dict)
    requires payload == map["partial_versions" := JStr("56.0build1, 57.0build2")]
    ensures PartialVersionsOf(payload) == Ok(map["56.0" := "1", "57.0" := "2"])
  {
    assert "56.0" + "build" + "1" + ", " + "57.0" + "build" + "2" == "56.0build1, 57.0build2";
    ExampleTwoTokens(payload, "56.0", "1", "57.0", "2");
  }

  lemma ExampleTwoTokens(payload: Dict, v1: string, n1: string, v2: string, n2: string)
    requires v1 == "56.0" && n1 == "1" && v2 == "57.0" && n2 == "2"
    requires payload == map["partial_versions" := JStr(v1 + "build" + n1 + ", " + v2 + "build" + n2)]
    ensures PartialVersionsOf(payload) == Ok(map[v1 := n1, v2 := n2])
  {
    var a := v1 + "build" + n1;
    var b := " " + (v2 + "build" + n2);
    var raw := payload["partial_versions"].s;
    assert raw == a + "," + b;
    ExampleSplit(a, b, raw);
    ExampleToken(v1, n1);
    ExamplePaddedToken(v2, n2);
    TwoTokens(payload, raw, a, b, v1, n1, v2, n2);
  }

  /** The first token of the example parses. */
  lemma ExampleToken(v: string, n: string)
    requires v == "56.0" && n == "1"
    ensures ParseToken(v + "build" + n) == Ok((v, n))
  {
    ShortHasNoBuild(v);
    ShortHasNoBuild(n);
    ParseTokenRoundTrip(v, n);
  }

  /** The second token of the example, after its space, parses. */
  lemma ExamplePaddedToken(v: string, n: string)
    requires v == "57.0" && n == "2"
    ensures ParseToken(" " + (v + "build" + n)) == Ok((v, n))
  {
    ShortHasNoBuild(v);
    ShortHasNoBuild(n);
    PaddedTokenRoundTrip(v, n);
  }

  /** A non-empty string of two well-formed tokens gives their two pairs. */
  lemma TwoTokens(payload: Dict, raw: string, a: string, b: string, v1: string, n1: string, v2: string, n2: string)
    requires payload == map["partial_versions" := JStr(raw)] && raw != ""
    requires Split(raw, ",") == [a, b]
    requires ParseToken(a) == Ok((v1, n1)) && ParseToken(b) == Ok((v2, n2))
    ensures PartialVersionsOf(payload) == Ok(map[v1 := n1, v2 := n2])
  {
    TokensOf(payload, raw, [a, b]);
    CollectTwo(a, b, ParseToken, v1, n1, v2, n2);
  }

  /** A truthy string is parsed token by token, the tokens being its comma-separated parts. */
  lemma TokensOf(payload: Dict, raw: string, tokens: seq<string>)
    requires payload == map["partial_versions" := JStr(raw)] && raw != ""
    requires Split(raw, ",") == tokens
    ensures PartialVersionsOf(payload) == Collect(tokens, ParseToken)
  {
  }

  /** Two tokens that parse give their two pairs, the second one last. */
  lemma CollectTwo(a: string, b: string, parse: Parser, v1: string, n1: string, v2: string, n2: string)
    requires parse(a) == Ok((v1, n1)) && parse(b) == Ok((v2, n2))
    ensures Collect([a, b], parse) == Ok(map[v1 := n1, v2 := n2])
  {
    assert [a, b][..1] == [a];
    assert [a][..0] == [];
    assert Collect([a], parse) == Ok(map[v1 := n1]);
  }

  lemma ExampleSplit(a: string, b: string, raw: string)
    requires a == "56.0build1" && b == " 57.0build2" && raw == a + "," + b
    ensures Split(raw, ",") == [a, b]
  {
    NoComma(a);
    NoComma(b);
    SplitJoin([a, b], ",");
    assert [a, b][1..] == [b];
  }

  /** The whitespace after a comma is stripped before the token is split. */
  lemma PaddedTokenRoundTrip(version: string, number: string)
    requires !Contains(version, "build") && !Contains(number, "build")
    requires version == [] || !IsSpace(version[0])
    requires number == [] || !IsSpace(number[|number| - 1])
    ensures ParseToken(" " + (version + "build" + number)) == Ok((version, number))
  {
    var token := version + "build" + number;
    assert (" " + token)[1..] == token;
    assert TrimStart(" " + token) == TrimStart(token);
    ParseTokenRoundTrip(version, number);
  }

  lemma NoComma(s: string)
    requires forall i :: 0 <= i < |s| ==> s[i] != ','
    ensures !Contains(s, ",")
  {
    forall i | 0 <= i <= |s|
      ensures !OccursAt(s, ",", i)
    {
      if i < |s| {
        assert s[i..i + 1][0] == s[i];
      }
    }
  }

  lemma ShortHasNoBuild(s: string)
    requires |s| < 5
    ensures !Contains(s, "build")
  {
  }
}
