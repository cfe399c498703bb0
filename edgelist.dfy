/**
 * How `load_dataset` reads the edge-list file, with the file given as its
 * sequence of lines: comment lines, lines that do not split into two tokens,
 * lines dropped by sampling and lines whose tokens are not integers are
 * skipped; every other line is an accepted edge, and a positive `max_edges`
 * stops the reading right after that many accepted lines.
 */
module EdgeList {
  import opened Wrappers
  import opened IntText

  /** `str.isspace()` for one character: the separators `str.split()` uses. */
  predicate IsSpace(c: char) {
    var k := c as int;
    k == 32 || 9 <= k <= 13 || 28 <= k <= 31 || k == 0x85 || k == 0xA0 || k == 0x1680
    || 0x2000 <= k <= 0x200A || k == 0x2028 || k == 0x2029 || k == 0x202F || k == 0x205F || k == 0x3000
  }

  predicate NoSpace(s: string) {
    forall i :: 0 <= i < |s| ==> !IsSpace(s[i])
  }

  predicate AllSpace(s: string) {
    forall i :: 0 <= i < |s| ==> IsSpace(s[i])
  }

  /** The length of the run of whitespace characters that starts `s`. */
  function SpaceLength(s: string): (k: nat)
    ensures k <= |s|
    ensures k == |s| || !IsSpace(s[k])
  {
    if s == [] || !IsSpace(s[0]) then 0 else 1 + SpaceLength(s[1..])
  }

  /** The whitespace run is all of `s` exactly when `s` is all whitespace. */
  lemma {:induction false} SpaceLengthOfSpace(s: string)
    ensures SpaceLength(s) == |s| <==> AllSpace(s)
  {
    if s != [] && IsSpace(s[0]) {
      SpaceLengthOfSpace(s[1..]);
      if AllSpace(s[1..]) {
        assert forall i :: 1 <= i < |s| ==> s[i] == s[1..][i - 1];
      }
    }
  }

  /** `s` without its leading whitespace. */
  function SkipSpace(s: string): string
  {
    s[SpaceLength(s)..]
  }

  /** The length of the run of non-whitespace characters that starts `s`. */
  function WordLength(s: string): (k: nat)
    ensures k <= |s|
  {
    if s == [] || IsSpace(s[0]) then 0 else 1 + WordLength(s[1..])
  }

  /** The run `WordLength` measures holds no whitespace and ends at
      whitespace or at the end of `s`. */
  lemma {:induction false} WordLengthOfRun(s: string)
    ensures NoSpace(s[..WordLength(s)])
    ensures WordLength(s) == |s| || IsSpace(s[WordLength(s)])
  {
    if s != [] && !IsSpace(s[0]) {
      WordLengthOfRun(s[1..]);
      assert s[..WordLength(s)] == [s[0]] + s[1..][..WordLength(s[1..])];
    }
  }

  /** `str.split()` with no arguments: the maximal runs of non-whitespace
      characters, in order. */
  function Words(s: string): seq<string>
    decreases |s|
  {
    var t := SkipSpace(s);
    if t == [] then []
    else
      var k := WordLength(t);
      [t[..k]] + Words(t[k..])
  }

  /** Every token of the split is non-empty and holds no whitespace. */
  lemma {:induction false} WordsAreTokens(s: string)
    ensures forall i :: 0 <= i < |Words(s)| ==> Words(s)[i] != [] && NoSpace(Words(s)[i])
    decreases |s|
  {
    var t := SkipSpace(s);
    if t != [] {
      var k := WordLength(t);
      WordLengthOfRun(t);
      WordsAreTokens(t[k..]);
    }
  }

  lemma WordsOfSpace(s: string)
    requires AllSpace(s)
    ensures Words(s) == []
  {
    SpaceLengthOfSpace(s);
  }

  lemma {:induction false} WordLengthOfWord(w: string, rest: string)
    requires NoSpace(w)
    requires rest == [] || IsSpace(rest[0])
    ensures WordLength(w + rest) == |w|
  {
    if w != [] {
      assert (w + rest)[1..] == w[1..] + rest;
      WordLengthOfWord(w[1..], rest);
    }
  }

  /** A leading whitespace character does not change the split. */
  lemma WordsAfterSpace(c: char, s: string)
    requires IsSpace(c)
    ensures Words([c] + s) == Words(s)
  {
    assert ([c] + s)[1..] == s;
  }

  /** A word followed by whitespace or the end of the text is the first token. */
  lemma WordsCons(w: string, rest: string)
    requires w != [] && NoSpace(w)
    requires rest == [] || IsSpace(rest[0])
    ensures Words(w + rest) == [w] + Words(rest)
  {
    var s := w + rest;
    assert SkipSpace(s) == s by { assert s[0] == w[0]; }
    WordLengthOfWord(w, rest);
    assert s[..|w|] == w;
    assert s[|w|..] == rest;
  }

  /** A space, then a word ended by whitespace or the end of the text. */
  lemma WordsSpaceCons(w: string, rest: string)
    requires w != [] && NoSpace(w)
    requires rest == [] || IsSpace(rest[0])
    ensures Words([' '] + (w + rest)) == [w] + Words(rest)
  {
    WordsAfterSpace(' ', w + rest);
    WordsCons(w, rest);
  }

  /** A space, then a word, then only whitespace: the word is the only token. */
  lemma WordsOfSpacedWord(w: string, tail: string)
    requires w != [] && NoSpace(w) && AllSpace(tail)
    ensures Words([' '] + (w + tail)) == [w]
  {
    WordsSpaceCons(w, tail);
    WordsOfSpace(tail);
  }

  /** Splitting `a b` followed by trailing whitespace (such as the newline the
      file iterator keeps) gives the two tokens. */
  lemma WordsOfPair(a: string, b: string, tail: string)
    requires a != [] && NoSpace(a) && b != [] && NoSpace(b) && AllSpace(tail)
    ensures Words(a + " " + b + tail) == [a, b]
  {
    var r := [' '] + (b + tail);
    assert a + " " + b + tail == a + r;
    WordsCons(a, r);
    WordsOfSpacedWord(b, tail);
  }

  /** What `load_dataset` does with one line. */
  datatype LineOutcome =
    | Comment          // the line starts with '#'
    | WrongTokenCount  // it does not split into exactly two tokens
    | SampledOut       // sampling dropped it
    | NotAnInteger     // a token raised ValueError in int()
    | EdgeLine(from: int, to: int)

  /** `sample_rate < 1.0 and random.random() > sample_rate`, with the random
      draw given. */
  predicate Dropped(sampleRate: real, draw: real) {
    sampleRate < 1.0 && draw > sampleRate
  }

  /** The outcome of one line, in the order the source checks. */
  function ReadLine(line: string, dropped: bool): LineOutcome
  {
    if |line| > 0 && line[0] == '#' then Comment
    else
      var parts := Words(line);
      if |parts| != 2 then WrongTokenCount
      else if dropped then SampledOut
      else
        match (ParseInt(parts[0]), ParseInt(parts[1]))
        case (Some(u), Some(v)) => EdgeLine(u, v)
        case _ => NotAnInteger
  }

  /** A line written as `str(u) + " " + str(v)` and ended by whitespace is read
      as the edge (u, v) unless sampling drops it or an id has more digits
      than `int()` accepts. */
  lemma ReadWrittenLine(u: int, v: int, tail: string, dropped: bool)
    requires AllSpace(tail)
    ensures ReadLine(Decimal(u) + " " + Decimal(v) + tail, dropped)
         == if dropped then SampledOut
            else if WithinStrLimit(u) && WithinStrLimit(v) then EdgeLine(u, v)
            else NotAnInteger
  {
    var a, b := Decimal(u), Decimal(v);
    DecimalToken(u);
    DecimalToken(v);
    ReadTwoTokens(a, b, tail, dropped);
    ParseDecimal(u);
    ParseDecimal(v);
  }

  /** A line of two tokens ended by whitespace, not a comment, is an edge
      when both tokens parse and no sampling drops it. */
  lemma ReadTwoTokens(a: string, b: string, tail: string, dropped: bool)
    requires a != [] && NoSpace(a) && a[0] != '#' && b != [] && NoSpace(b) && AllSpace(tail)
    ensures ReadLine(a + " " + b + tail, dropped)
         == if dropped then SampledOut
            else if ParseInt(a).Some? && ParseInt(b).Some? then EdgeLine(ParseInt(a).value, ParseInt(b).value)
            else NotAnInteger
  {
    var line := a + " " + b + tail;
    WordsOfPair(a, b, tail);
    assert line[0] == a[0];
  }


  /** `str(n)` is a single token that does not start a comment. */
  lemma DecimalToken(n: int)
    ensures Decimal(n) != [] && NoSpace(Decimal(n)) && Decimal(n)[0] != '#'
  {
    if n < 0 {
      var d := Digits(-n);
      assert Decimal(n) == "-" + d;
      assert forall i :: 1 <= i < |Decimal(n)| ==> Decimal(n)[i] == d[i - 1];
    } else {
      assert Decimal(n) == Digits(n);
    }
  }


  /** A two-token line whose first or second token holds a character `int()`
      rejects (a letter, a dot) is skipped unless sampling dropped it first. */
  lemma ForeignTokenSkipped(a: string, b: string, tail: string, i: nat, dropped: bool)
    requires a != [] && NoSpace(a) && a[0] != '#' && b != [] && NoSpace(b) && AllSpace(tail)
    requires (i < |a| && !IsDigit(a[i]) && a[i] !in "_+-") || (i < |b| && !IsDigit(b[i]) && b[i] !in "_+-")
    ensures ReadLine(a + " " + b + tail, dropped) == if dropped then SampledOut else NotAnInteger
  {
    ReadTwoTokens(a, b, tail, dropped);
    if i < |a| && !IsDigit(a[i]) && a[i] !in "_+-" {
      ParseIntRejectsForeignChar(a, i);
    } else {
      ParseIntRejectsForeignChar(b, i);
    }
  }


  /** A comment line is skipped whatever follows the `#`. */
  lemma CommentSkipped(rest: string, dropped: bool)
    ensures ReadLine("#" + rest, dropped) == Comment
  {
  }

  lemma WordsOfSpacedToken(c: string)
    requires c != [] && NoSpace(c)
    ensures Words([' '] + c) == [c]
  {
    assert [' '] + c == [' '] + (c + []);
    WordsOfSpacedWord(c, []);
  }

  lemma WordsOfSpacedPair(b: string, c: string)
    requires b != [] && NoSpace(b) && c != [] && NoSpace(c)
    ensures Words([' '] + (b + ([' '] + c))) == [b, c]
  {
    WordsSpaceCons(b, [' '] + c);
    WordsOfSpacedToken(c);
  }

  lemma WordsOfTriple(a: string, b: string, c: string)
    requires a != [] && NoSpace(a) && b != [] && NoSpace(b) && c != [] && NoSpace(c)
    ensures Words(a + " " + b + " " + c) == [a, b, c]
  {
    var sc := [' '] + c;
    var r := [' '] + (b + sc);
    calc {
      a + " " + b + " " + c;
      == { ConcatAssoc(a + " " + b, " ", c); }
      (a + " " + b) + sc;
      == { ConcatAssoc(a + " ", b, sc); }
      (a + " ") + (b + sc);
      == { ConcatAssoc(a, " ", b + sc); }
      a + r;
    }
    WordsCons(a, r);
    WordsOfSpacedPair(b, c);
  }

  /** Concatenation is associative. */
  lemma ConcatAssoc(x: string, y: string, z: string)
    ensures (x + y) + z == x + (y + z)
  {
  }


  /** A line of three tokens is skipped, whatever the tokens are. */
  lemma ThreeTokensSkipped(a: string, b: string, c: string, dropped: bool)
    requires a != [] && NoSpace(a) && a[0] != '#' && b != [] && NoSpace(b) && c != [] && NoSpace(c)
    ensures ReadLine(a + " " + b + " " + c, dropped) == WrongTokenCount
  {
    var s := a + " " + b + " " + c;
    WordsOfTriple(a, b, c);
    assert s[0] == a[0];
  }

  /** The body of the reading loop of `load_dataset` as statements: each
      check returns early where the source `continue`s, in the source's
      order. It is proved to agree with `ReadLine`, the same checks as an
      expression, which the lemmas above reason about. */
  method ReadEdge(line: string, dropped: bool) returns (edge: Option<(int, int)>)
    ensures LineEdges(ReadLine(line, dropped)) == if edge.Some? then [edge.value] else []
  {
    if |line| > 0 && line[0] == '#' {
      return None;
    }
    var parts := Words(line);
    if |parts| != 2 {
      return None;
    }
    if dropped {
      return None;
    }
    var fromNode := ParseInt(parts[0]);
    var toNode := ParseInt(parts[1]);
    if fromNode.None? || toNode.None? {
      return None;
    }
    return Some((fromNode.value, toNode.value));
  }

  /** The edges read from the first `n` lines, in file order, before any cap;
      line `i` is dropped by sampling when `Dropped(sampleRate, draws(i))`. */
  function Accepted(lines: seq<string>, n: nat, sampleRate: real, draws: nat -> real): (es: seq<(int, int)>)
    requires n <= |lines|
    ensures |es| <= n
  {
    if n == 0 then []
    else
      Accepted(lines, n - 1, sampleRate, draws) + LineEdges(ReadLine(lines[n - 1], Dropped(sampleRate, draws(n - 1))))
  }

  /** The edge an outcome contributes: one for an edge line, none otherwise. */
  function LineEdges(outcome: LineOutcome): seq<(int, int)>
  {
    if outcome.EdgeLine? then [(outcome.from, outcome.to)] else []
  }

  /** One more line adds what that line contributes. */
  lemma AcceptedNext(lines: seq<string>, i: nat, sampleRate: real, draws: nat -> real, contributed: seq<(int, int)>)
    requires i < |lines|
    requires LineEdges(ReadLine(lines[i], Dropped(sampleRate, draws(i)))) == contributed
    ensures Accepted(lines, i + 1, sampleRate, draws) == Accepted(lines, i, sampleRate, draws) + contributed
  {
  }

  /** Reading more lines only extends the list of accepted edges. */
  lemma {:induction false} AcceptedPrefix(lines: seq<string>, i: nat, j: nat, sampleRate: real, draws: nat -> real)
    requires i <= j <= |lines|
    ensures |Accepted(lines, i, sampleRate, draws)| <= |Accepted(lines, j, sampleRate, draws)|
    ensures Accepted(lines, j, sampleRate, draws)[..|Accepted(lines, i, sampleRate, draws)|]
         == Accepted(lines, i, sampleRate, draws)
    decreases j - i
  {
    if i < j {
      AcceptedPrefix(lines, i, j - 1, sampleRate, draws);
    }
  }

  /** With a sample rate of 1.0 or more no line is dropped, so the random
      draws do not matter. */
  lemma {:induction false} FullRateIgnoresDraws(lines: seq<string>, n: nat, sampleRate: real, draws: nat -> real, other: nat -> real)
    requires n <= |lines| && sampleRate >= 1.0
    ensures Accepted(lines, n, sampleRate, draws) == Accepted(lines, n, sampleRate, other)
  {
    if n > 0 {
      FullRateIgnoresDraws(lines, n - 1, sampleRate, draws, other);
    }
  }

  /** Every endpoint of an accepted edge has few enough digits for `str` to
      write it back, since `int()` accepted its token. */
  lemma {:induction false} AcceptedWithinStrLimit(lines: seq<string>, n: nat, sampleRate: real, draws: nat -> real)
    requires n <= |lines|
    ensures forall p :: p in Accepted(lines, n, sampleRate, draws) ==> WithinStrLimit(p.0) && WithinStrLimit(p.1)
  {
    if n > 0 {
      AcceptedWithinStrLimit(lines, n - 1, sampleRate, draws);
      var parts := Words(lines[n - 1]);
      if |parts| == 2 {
        ParsedWithinStrLimit(parts[0]);
        ParsedWithinStrLimit(parts[1]);
      }
    }
  }

  function Min(a: int, b: int): int {
    if a <= b then a else b
  }

  /** How many accepted lines are loaded under `max_edges`: the test
      `if max_edges and edges_count >= max_edges: break` runs after each
      accepted line, so None and 0 mean no cap, a positive N keeps the first
      N, and a negative N stops after the first accepted line. */
  function CapCount(maxEdges: Option<int>, available: nat): (k: nat)
    ensures k <= available
    ensures (maxEdges == None || maxEdges == Some(0)) ==> k == available
    ensures maxEdges.Some? && maxEdges.value > 0 ==> k == Min(maxEdges.value, available)
    ensures maxEdges.Some? && maxEdges.value < 0 ==> k == Min(1, available)
  {
    match maxEdges
    case None => available
    case Some(n) =>
      if n == 0 then available
      else if n > 0 then Min(n, available)
      else Min(1, available)
  }

  /** The condition of the early `break`. */
  predicate CapReached(maxEdges: Option<int>, count: nat) {
    maxEdges.Some? && maxEdges.value != 0 && count >= maxEdges.value
  }

  /** The accepted edges that are loaded under `max_edges`: a prefix of
      them, all of them when there is no cap, at most N under a positive cap
      N, and all of them when no more than N were accepted. */
  function CapPrefix(all: seq<(int, int)>, maxEdges: Option<int>): (es: seq<(int, int)>)
    ensures |es| <= |all| && es == all[..|es|]
    ensures maxEdges == None || maxEdges == Some(0) ==> es == all
    ensures maxEdges.Some? && maxEdges.value > 0 ==> |es| <= maxEdges.value
    ensures maxEdges.Some? && maxEdges.value > 0 && |all| <= maxEdges.value ==> es == all
    ensures maxEdges.Some? && maxEdges.value < 0 ==> |es| <= 1
  {
    all[..CapCount(maxEdges, |all|)]
  }

  /** The loop stops right after the accepted line that first reaches the
      cap: what it has loaded then is the capped prefix. */
  lemma CapAtBreak(all: seq<(int, int)>, count: nat, maxEdges: Option<int>)
    requires 0 < count <= |all|
    requires CapReached(maxEdges, count)
    requires count - 1 > 0 ==> !CapReached(maxEdges, count - 1)
    ensures CapPrefix(all, maxEdges) == all[..count]
  {
    if maxEdges.value < 0 {
      assert count == 1;
    } else {
      assert count == maxEdges.value;
    }
  }

  /** The loop runs out of lines without reaching the cap: everything
      accepted is loaded. */
  lemma CapAtEnd(all: seq<(int, int)>, maxEdges: Option<int>)
    requires |all| > 0 ==> !CapReached(maxEdges, |all|)
    ensures CapPrefix(all, maxEdges) == all
  {
    if maxEdges.Some? && maxEdges.value < 0 {
      assert |all| == 0;
    }
  }

  /** The edges `load_dataset` passes to `add_edge`, in order. */
  function LoadedEdges(lines: seq<string>, maxEdges: Option<int>, sampleRate: real, draws: nat -> real): seq<(int, int)>
  {
    CapPrefix(Accepted(lines, |lines|, sampleRate, draws), maxEdges)
  }


  /** Every endpoint of a loaded edge has at most `MaxStrDigits` digits. */
  lemma LoadedWithinStrLimit(lines: seq<string>, maxEdges: Option<int>, sampleRate: real, draws: nat -> real, p: (int, int))
    requires p in LoadedEdges(lines, maxEdges, sampleRate, draws)
    ensures WithinStrLimit(p.0) && WithinStrLimit(p.1)
  {
    var all := Accepted(lines, |lines|, sampleRate, draws);
    var loaded := LoadedEdges(lines, maxEdges, sampleRate, draws);
    AcceptedWithinStrLimit(lines, |lines|, sampleRate, draws);
    var k :| 0 <= k < |loaded| && loaded[k] == p;
    assert all[k] == p;
  }

  /** The reading loop breaks right after line `n - 1`, the first accepted
      line to reach the cap: what it has loaded is everything it would load. */
  lemma LoadedAtBreak(lines: seq<string>, n: nat, maxEdges: Option<int>, sampleRate: real, draws: nat -> real)
    requires n <= |lines|
    requires var count := |Accepted(lines, n, sampleRate, draws)|;
      && count > 0 && CapReached(maxEdges, count)
      && (count - 1 > 0 ==> !CapReached(maxEdges, count - 1))
    ensures LoadedEdges(lines, maxEdges, sampleRate, draws) == Accepted(lines, n, sampleRate, draws)
  {
    var all := Accepted(lines, |lines|, sampleRate, draws);
    AcceptedPrefix(lines, n, |lines|, sampleRate, draws);
    CapAtBreak(all, |Accepted(lines, n, sampleRate, draws)|, maxEdges);
  }

  /** The reading loop runs out of lines before the cap: everything accepted
      is loaded. */
  lemma LoadedAtEnd(lines: seq<string>, maxEdges: Option<int>, sampleRate: real, draws: nat -> real)
    requires var count := |Accepted(lines, |lines|, sampleRate, draws)|;
      count > 0 ==> !CapReached(maxEdges, count)
    ensures LoadedEdges(lines, maxEdges, sampleRate, draws) == Accepted(lines, |lines|, sampleRate, draws)
  {
    CapAtEnd(Accepted(lines, |lines|, sampleRate, draws), maxEdges);
  }
}
