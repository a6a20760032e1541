/** Names made from a template and read back from it: strings.ReplaceAll and ExtractName. */
module NameTemplates {
  import opened ObjectIds

  const PLACEHOLDER := "{.metadata.name}"
  const GROUP := "(.*)"

  /** Go's strings.ReplaceAll for a text that is not empty. */
  function ReplaceAll(s: string, was: string, now: string): string
    requires was != ""
  {
    if s == [] then []
    else if was <= s then now + ReplaceAll(s[|was|..], was, now)
    else [s[0]] + ReplaceAll(s[1..], was, now)
  }

  // ---------------------------------------------------------------- the pattern

  /** Characters that stand for themselves in a regular expression, and the dot. */
  predicate IsPlain(text: string) {
    forall c <- text :: c !in "\\+*?()|[]{}^$"
  }

  datatype Token = Char(c: char) | AnyChar | Hole

  /** The pattern language of plain text, dots and groups of any characters. */
  function Parse(pattern: string): seq<Token> {
    if pattern == [] then []
    else if GROUP <= pattern then [Hole] + Parse(pattern[|GROUP|..])
    else [if pattern[0] == '.' then AnyChar else Char(pattern[0])] + Parse(pattern[1..])
  }

  /** Neither the dot nor the group crosses a line. */
  predicate IsLine(s: string) {
    '\n' !in s
  }

  /** name as a whole matches, and `captured` is what the groups hold. */
  ghost predicate Matches(tokens: seq<Token>, name: string, captured: seq<string>) {
    if tokens == [] then name == [] && captured == []
    else match tokens[0]
      case Char(c) => name != [] && name[0] == c && Matches(tokens[1..], name[1..], captured)
      case AnyChar => name != [] && name[0] != '\n' && Matches(tokens[1..], name[1..], captured)
      case Hole => captured != [] && IsLine(captured[0]) && captured[0] <= name
                   && Matches(tokens[1..], name[|captured[0]|..], captured[1..])
  }

  function Holes(tokens: seq<Token>): nat {
    if tokens == [] then 0 else (if tokens[0].Hole? then 1 else 0) + Holes(tokens[1..])
  }

  /** What a match with as many characters as tokens needs. */
  predicate Fits(tokens: seq<Token>, name: string) {
    && |name| == |tokens|
    && forall i :: 0 <= i < |tokens| ==>
         match tokens[i] case Char(c) => name[i] == c case AnyChar => name[i] != '\n' case Hole => false
  }

  lemma {:induction false} MatchingCaptures(tokens: seq<Token>, name: string, captured: seq<string>)
    requires Matches(tokens, name, captured)
    ensures |captured| == Holes(tokens)
  {
    if tokens != [] {
      match tokens[0]
      case Hole => MatchingCaptures(tokens[1..], name[|captured[0]|..], captured[1..]);
      case _ => MatchingCaptures(tokens[1..], name[1..], captured);
    }
  }

  lemma {:induction false} MatchesWithoutHoles(tokens: seq<Token>, name: string)
    requires Hole !in tokens
    ensures Matches(tokens, name, []) <==> Fits(tokens, name)
  {
    if tokens != [] {
      assert tokens[0] in tokens && Hole !in tokens[1..];
      if name != [] {
        MatchesWithoutHoles(tokens[1..], name[1..]);
        assert Fits(tokens, name) <==> Fits([tokens[0]], [name[0]]) && Fits(tokens[1..], name[1..]) by {
          assert tokens == [tokens[0]] + tokens[1..] && name == [name[0]] + name[1..];
        }
      }
    }
  }

  /** One hole: the text around it has fixed length, so what it holds is determined. */
  lemma {:induction false} MatchesWithOneHole(before: seq<Token>, after: seq<Token>, name: string, x: string)
    requires Hole !in before && Hole !in after
    ensures Matches(before + [Hole] + after, name, [x]) <==>
      (IsLine(x) && |name| == |before| + |x| + |after| && name[|before|..|before| + |x|] == x
       && Fits(before, name[..|before|]) && Fits(after, name[|before| + |x|..]))
  {
    var all := before + [Hole] + after;
    if before == [] {
      assert all[1..] == after;
      if x <= name {
        MatchesWithoutHoles(after, name[|x|..]);
      }
    } else {
      var rest := before[1..];
      assert before[0] in before && Hole !in rest;
      assert all[0] == before[0] && all[1..] == rest + [Hole] + after;
      if name != [] {
        MatchesWithOneHole(rest, after, name[1..], x);
        if |name| == |before| + |x| + |after| {
          var head := name[..|before|];
          assert head[1..] == name[1..][..|rest|] && name[1..][|rest| + |x|..] == name[|before| + |x|..];
          assert name[1..][|rest|..|rest| + |x|] == name[|before|..|before| + |x|];
          assert Fits(before, head) <==> Fits([before[0]], [head[0]]) && Fits(rest, head[1..]) by {
            assert before == [before[0]] + rest && head == [head[0]] + head[1..];
          }
        }
      }
    }
  }

  // ---------------------------------------------------------------- templates

  ghost predicate ArePlain(texts: seq<string>) {
    forall text <- texts :: IsPlain(text)
  }

  /** The texts of a template with `between` in every gap. */
  function Join(texts: seq<string>, between: string): string
    requires texts != []
  {
    if |texts| == 1 then texts[0] else texts[0] + between + Join(texts[1..], between)
  }

  lemma JoinStep(texts: seq<string>, between: string)
    requires texts != [] && texts[0] != ""
    ensures Join(texts, between) == [texts[0][0]] + Join([texts[0][1..]] + texts[1..], between)
  {
    var less := [texts[0][1..]] + texts[1..];
    assert less[1..] == texts[1..] && texts[0] == [texts[0][0]] + texts[0][1..];
    if |texts| > 1 {
      assert texts[0] + between + Join(texts[1..], between)
          == [texts[0][0]] + (texts[0][1..] + between + Join(texts[1..], between));
    }
  }

  lemma PlainStep(texts: seq<string>)
    requires texts != [] && ArePlain(texts)
    ensures ArePlain(texts[1..]) && IsPlain(texts[0])
    ensures texts[0] != "" ==> ArePlain([texts[0][1..]] + texts[1..])
  {
    assert IsPlain(texts[0]);
  }

  /** ReplaceAll fills every gap and nothing else. */
  lemma {:induction false} ReplacingFillsTheGaps(texts: seq<string>, now: string)
    requires texts != [] && ArePlain(texts)
    ensures ReplaceAll(Join(texts, PLACEHOLDER), PLACEHOLDER, now) == Join(texts, now)
    decreases |texts|, |texts[0]|
  {
    PlainStep(texts);
    var all := Join(texts, PLACEHOLDER);
    if texts[0] != "" {
      JoinStep(texts, PLACEHOLDER);
      JoinStep(texts, now);
      ReplacingFillsTheGaps([texts[0][1..]] + texts[1..], now);
      assert all[0] == texts[0][0] && all[0] in texts[0] && PLACEHOLDER[0] == '{';
    } else if |texts| > 1 {
      assert all == PLACEHOLDER + Join(texts[1..], PLACEHOLDER);
      ReplacingFillsTheGaps(texts[1..], now);
    }
  }

  function Tokens(text: string): seq<Token> {
    seq(|text|, i requires 0 <= i < |text| => if text[i] == '.' then AnyChar else Char(text[i]))
  }

  function JoinTokens(texts: seq<string>): seq<Token>
    requires texts != []
  {
    if |texts| == 1 then Tokens(texts[0]) else Tokens(texts[0]) + [Hole] + JoinTokens(texts[1..])
  }

  lemma JoinTokensStep(texts: seq<string>)
    requires texts != [] && texts[0] != ""
    ensures JoinTokens(texts) == Tokens(texts[0][..1]) + JoinTokens([texts[0][1..]] + texts[1..])
  {
    var less := [texts[0][1..]] + texts[1..];
    assert less[1..] == texts[1..];
    assert Tokens(texts[0]) == Tokens(texts[0][..1]) + Tokens(texts[0][1..]);
    if |texts| > 1 {
      assert Tokens(texts[0]) + [Hole] + JoinTokens(texts[1..])
          == Tokens(texts[0][..1]) + (Tokens(texts[0][1..]) + [Hole] + JoinTokens(texts[1..]));
    }
  }

  lemma {:induction false} ParsingFindsTheGaps(texts: seq<string>)
    requires texts != [] && ArePlain(texts)
    ensures Parse(Join(texts, GROUP)) == JoinTokens(texts)
    decreases |texts|, |texts[0]|
  {
    PlainStep(texts);
    var all := Join(texts, GROUP);
    if texts[0] != "" {
      JoinStep(texts, GROUP);
      JoinTokensStep(texts);
      ParsingFindsTheGaps([texts[0][1..]] + texts[1..]);
      assert all[0] == texts[0][0] && all[0] in texts[0] && GROUP[0] == '(';
    } else if |texts| > 1 {
      assert all == GROUP + Join(texts[1..], GROUP);
      ParsingFindsTheGaps(texts[1..]);
    }
  }

  lemma {:induction false} HolesOfGaps(texts: seq<string>)
    requires texts != []
    ensures Holes(JoinTokens(texts)) == |texts| - 1
    decreases |texts|, |texts[0]|
  {
    var all := JoinTokens(texts);
    if texts[0] != "" {
      JoinTokensStep(texts);
      HolesOfGaps([texts[0][1..]] + texts[1..]);
      assert all[1..] == JoinTokens([texts[0][1..]] + texts[1..]);
    } else if |texts| > 1 {
      assert all == [Hole] + JoinTokens(texts[1..]);
      HolesOfGaps(texts[1..]);
    }
  }

  // ---------------------------------------------------------------- ExtractName

  /** The name is the one group of the match, if there is a match and it has one group. */
  ghost function ExtractName(name: string, template: string): Option<string> {
    var tokens := Parse(ReplaceAll(template, PLACEHOLDER, GROUP));
    if exists x :: Matches(tokens, name, [x]) then
      var x :| Matches(tokens, name, [x]); Some(x)
    else None
  }

  /** text is like name, a dot standing for any character of a line. */
  predicate Like(text: string, name: string) {
    |text| == |name| && forall i :: 0 <= i < |text| ==> (if text[i] == '.' then name[i] != '\n' else text[i] == name[i])
  }

  /** name is the prefix, x and the suffix, up to the dots of the template, and x is within a line. */
  predicate ReadsAs(prefix: string, suffix: string, name: string, x: string) {
    IsLine(x) && |name| == |prefix| + |x| + |suffix| && name[|prefix|..|prefix| + |x|] == x
    && Like(prefix, name[..|prefix|]) && Like(suffix, name[|prefix| + |x|..])
  }

  /** The tokens of a template with one placeholder. */
  lemma OnePlaceholder(prefix: string, suffix: string)
    requires IsPlain(prefix) && IsPlain(suffix)
    ensures Parse(ReplaceAll(prefix + PLACEHOLDER + suffix, PLACEHOLDER, GROUP)) ==
      Tokens(prefix) + [Hole] + Tokens(suffix)
  {
    var texts := [prefix, suffix];
    assert texts[1..] == [suffix];
    ReplacingFillsTheGaps(texts, GROUP);
    ParsingFindsTheGaps(texts);
  }

  lemma FitsIsLike(text: string, name: string)
    ensures Fits(Tokens(text), name) <==> Like(text, name)
  {}

  lemma MatchIsReading(prefix: string, suffix: string, name: string, x: string)
    ensures Matches(Tokens(prefix) + [Hole] + Tokens(suffix), name, [x]) <==> ReadsAs(prefix, suffix, name, x)
  {
    assert Hole !in Tokens(prefix) && Hole !in Tokens(suffix);
    MatchesWithOneHole(Tokens(prefix), Tokens(suffix), name, x);
    if |name| == |prefix| + |x| + |suffix| {
      FitsIsLike(prefix, name[..|prefix|]);
      FitsIsLike(suffix, name[|prefix| + |x|..]);
    }
  }

  /** Exactly which names a template with one placeholder reads which x from. */
  lemma ExtractsExactly(prefix: string, suffix: string, name: string, x: string)
    requires IsPlain(prefix) && IsPlain(suffix)
    ensures ExtractName(name, prefix + PLACEHOLDER + suffix) == Some(x) <==> ReadsAs(prefix, suffix, name, x)
  {
    OnePlaceholder(prefix, suffix);
    forall y
      ensures Matches(Tokens(prefix) + [Hole] + Tokens(suffix), name, [y]) <==> ReadsAs(prefix, suffix, name, y)
    {
      MatchIsReading(prefix, suffix, name, y);
    }
    forall y, z | ReadsAs(prefix, suffix, name, y) && ReadsAs(prefix, suffix, name, z)
      ensures y == z
    {
    }
  }

  function NameOf(template: string, x: string): string {
    ReplaceAll(template, PLACEHOLDER, x)
  }

  lemma NameIs(prefix: string, suffix: string, x: string)
    requires IsPlain(prefix) && IsPlain(suffix)
    ensures NameOf(prefix + PLACEHOLDER + suffix, x) == prefix + x + suffix
  {
    var texts := [prefix, suffix];
    assert texts[1..] == [suffix];
    ReplacingFillsTheGaps(texts, x);
  }

  /** The name put in is recovered, unless it spans lines. */
  lemma RoundTrip(prefix: string, suffix: string, x: string)
    requires IsPlain(prefix) && IsPlain(suffix)
    ensures var template := prefix + PLACEHOLDER + suffix;
      ExtractName(NameOf(template, x), template) == Some(x) <==> IsLine(x)
  {
    NameIs(prefix, suffix, x);
    var name := prefix + x + suffix;
    assert name[..|prefix|] == prefix && name[|prefix| + |x|..] == suffix;
    ExtractsExactly(prefix, suffix, name, x);
  }

  lemma WithoutDots(prefix: string, suffix: string, name: string, x: string)
    requires IsPlain(prefix) && IsPlain(suffix) && '.' !in prefix && '.' !in suffix
    requires ExtractName(name, prefix + PLACEHOLDER + suffix) == Some(x)
    ensures name == NameOf(prefix + PLACEHOLDER + suffix, x)
  {
    ExtractsExactly(prefix, suffix, name, x);
    NameIs(prefix, suffix, x);
    assert name[..|prefix|] == prefix && name[|prefix| + |x|..] == suffix;
    assert name == name[..|prefix|] + x + name[|prefix| + |x|..];
  }

  function Undotted(text: string): string {
    seq(|text|, i requires 0 <= i < |text| => if text[i] == '.' then '-' else text[i])
  }

  lemma WithDots(prefix: string, suffix: string)
    requires IsPlain(prefix) && IsPlain(suffix) && ('.' in prefix || '.' in suffix)
    ensures ExtractName(Undotted(prefix) + Undotted(suffix), prefix + PLACEHOLDER + suffix) == Some("")
    ensures Undotted(prefix) + Undotted(suffix) != NameOf(prefix + PLACEHOLDER + suffix, "")
  {
    var other := Undotted(prefix) + Undotted(suffix);
    assert other[..|prefix|] == Undotted(prefix) && other[|prefix|..] == Undotted(suffix);
    ExtractsExactly(prefix, suffix, other, "");
    NameIs(prefix, suffix, "");
    assert prefix + "" + suffix == prefix + suffix;
    assert '.' in prefix + suffix && '.' !in other;
  }

  /** Every x read from a name would give that name back exactly when the template has no dot. */
  lemma ReadingInvertsIff(prefix: string, suffix: string)
    requires IsPlain(prefix) && IsPlain(suffix)
    ensures (forall name, x :: ExtractName(name, prefix + PLACEHOLDER + suffix) == Some(x) ==>
                               name == NameOf(prefix + PLACEHOLDER + suffix, x))
       <==> '.' !in prefix && '.' !in suffix
  {
    if '.' !in prefix && '.' !in suffix {
      forall name, x | ExtractName(name, prefix + PLACEHOLDER + suffix) == Some(x)
        ensures name == NameOf(prefix + PLACEHOLDER + suffix, x)
      {
        WithoutDots(prefix, suffix, name, x);
      }
    } else {
      WithDots(prefix, suffix);
    }
  }

  /** With no placeholder, or with several, nothing is ever read. */
  lemma OnlyOnePlaceholderIsRead(texts: seq<string>, name: string)
    requires texts != [] && ArePlain(texts) && |texts| != 2
    ensures ExtractName(name, Join(texts, PLACEHOLDER)) == None
  {
    ReplacingFillsTheGaps(texts, GROUP);
    ParsingFindsTheGaps(texts);
    HolesOfGaps(texts);
    if x :| Matches(JoinTokens(texts), name, [x]) {
      MatchingCaptures(JoinTokens(texts), name, [x]);
      assert false;
    }
  }
}
