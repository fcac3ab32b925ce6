/**
 * The element-name scanner of the assay-header lexer and the token-shape
 * check that turns a header such as "Au ppm" into an (element, unit) pair
 * (ElementParser.py). The lexer that drives the rules is not part of this
 * model: its outcome is a parameter.
 */
module ElementParser {
  import opened Wrappers

  /** ASCII letters and digits (the model's stand-in for `str.isalnum`). */
  predicate IsAlnum(c: char)
  {
    ('a' <= c <= 'z') || ('A' <= c <= 'Z') || ('0' <= c <= '9')
  }

  /** A character that may start an element name. */
  predicate StartsName(c: char)
  {
    IsAlnum(c) || c == '('
  }

  /** A character that may continue an element name. */
  predicate ContinuesName(c: char)
  {
    IsAlnum(c) || c == '(' || c == ')'
  }

  /**
   * Where the run of name characters that begins at position i ends: the
   * first position at or after i that does not continue a name, or the end.
   */
  function NameRunEnd(text: string, i: nat): (e: nat)
    requires i <= |text|
    ensures i <= e <= |text|
    ensures forall k :: i <= k < e ==> ContinuesName(text[k])
    ensures e == |text| || !ContinuesName(text[e])
    decreases |text| - i
  {
    if i == |text| || !ContinuesName(text[i]) then i else NameRunEnd(text, i + 1)
  }

  /** Any end with those two properties is the run's end. */
  lemma NameRunEndUnique(text: string, i: nat, e: nat)
    requires i <= e <= |text|
    requires forall k :: i <= k < e ==> ContinuesName(text[k])
    requires e == |text| || !ContinuesName(text[e])
    ensures NameRunEnd(text, i) == e
    decreases |text| - i
  {
    if i < e {
      NameRunEndUnique(text, i + 1, e);
    }
  }

  /** A lexer token: its kind and the text it covers. */
  datatype Token = Token(kind: string, text: string)

  /** What a rule's `match` gives back: no match, a token, or an exception. */
  datatype MatchResult =
    | NoMatch
    | Matched(token: Token)
    | Raised      // `peek` at the end of the input gives None, and None has no `isalnum`

  /** The lexer's character stream: the input and the read position. */
  class CharacterStream {
    const text: string
    var pos: nat

    ghost predicate Valid()
      reads this
    {
      pos <= |text|
    }

    constructor (text: string)
      ensures this.text == text && pos == 0 && Valid()
    {
      this.text := text;
      pos := 0;
    }

    /** The next character without consuming it, or None at the end. */
    function Peek(): (r: Option<char>)
      reads this
      requires Valid()
      ensures r.None? <==> pos == |text|
      ensures r.Some? ==> r.value == text[pos]
    {
      if pos == |text| then None else Some(text[pos])
    }

    /** Consumes and returns the next character. */
    method Pop() returns (c: char)
      requires Valid() && pos < |text|
      modifies this
      ensures Valid() && pos == old(pos) + 1 && c == text[old(pos)]
    {
      c := text[pos];
      pos := pos + 1;
    }
  }

  /**
   * `ElementNameRule.match`: refuses, consuming nothing, unless the next
   * character starts a name; otherwise consumes the longest run of name
   * characters and returns it as a "symbol" token.
   */
  method Match(stream: CharacterStream) returns (r: MatchResult)
    requires stream.Valid()
    modifies stream
    ensures stream.Valid()
    ensures old(stream.pos) == |stream.text| ==> r == Raised && stream.pos == old(stream.pos)
    ensures old(stream.pos) < |stream.text| && !StartsName(stream.text[old(stream.pos)]) ==>
              r == NoMatch && stream.pos == old(stream.pos)
    ensures old(stream.pos) < |stream.text| && StartsName(stream.text[old(stream.pos)]) ==>
              && stream.pos == NameRunEnd(stream.text, old(stream.pos) + 1)
              && r == Matched(Token("symbol", stream.text[old(stream.pos)..stream.pos]))
  {
    var firstChar := stream.Peek();
    if firstChar.None? {
      return Raised;
    }
    if !StartsName(firstChar.value) {
      return NoMatch;
    }
    ghost var start := stream.pos;
    var c := stream.Pop();
    var identifier := [c];
    while true
      invariant stream.Valid() && start < stream.pos
      invariant identifier == stream.text[start..stream.pos]
      invariant forall k :: start < k < stream.pos ==> ContinuesName(stream.text[k])
      decreases |stream.text| - stream.pos
    {
      var nextChar := stream.Peek();
      if nextChar.None? || !ContinuesName(nextChar.value) {
        break;
      }
      c := stream.Pop();
      identifier := identifier + [c];
    }
    NameRunEndUnique(stream.text, start + 1, stream.pos);
    r := Matched(Token("symbol", identifier));
  }

  /** A matched name is non-empty, starts with a name-starting character and is all name characters. */
  lemma MatchedNameShape(text: string, start: nat)
    requires start < |text| && StartsName(text[start])
    ensures var name := text[start..NameRunEnd(text, start + 1)];
            && |name| >= 1
            && name[0] == text[start]
            && forall k :: 0 <= k < |name| ==> ContinuesName(name[k])
  {
    var e := NameRunEnd(text, start + 1);
    var name := text[start..e];
    forall k | 0 <= k < |name| ensures ContinuesName(name[k]) {
      assert name[k] == text[start + k];
    }
  }

  /**
   * `TryParse`: runs the lexer and accepts exactly two tokens, a "symbol"
   * followed by a "UNIT", returning their texts; a lexer exception or any
   * other token list gives None.
   */
  function TryParse(tokenise: string -> Option<seq<Token>>, parseString: string): (r: Option<(string, string)>)
    ensures r.Some? <==>
              && tokenise(parseString).Some?
              && |tokenise(parseString).value| == 2
              && tokenise(parseString).value[0].kind == "symbol"
              && tokenise(parseString).value[1].kind == "UNIT"
    ensures r.Some? ==>
              r.value == (tokenise(parseString).value[0].text, tokenise(parseString).value[1].text)
  {
    match tokenise(parseString)
    case None => None
    case Some(parsed) =>
      if |parsed| != 2 then None
      else if parsed[0].kind == "symbol" && parsed[1].kind == "UNIT" then Some((parsed[0].text, parsed[1].text))
      else None
  }

  /** Swapping the two tokens, or adding a third, makes the header unparseable. */
  lemma TryParseShape(tokenise: string -> Option<seq<Token>>, s: string, sym: Token, unit: Token, extra: Token)
    requires sym.kind == "symbol" && unit.kind == "UNIT"
    ensures tokenise(s) == Some([sym, unit]) ==> TryParse(tokenise, s) == Some((sym.text, unit.text))
    ensures tokenise(s) == Some([unit, sym]) ==> TryParse(tokenise, s).None?
    ensures tokenise(s) == Some([sym, unit, extra]) ==> TryParse(tokenise, s).None?
  {
  }
}
