/**
  The C comment stripper: line splices are removed, then one left-to-right scan copies
  literals and code and turns each comment into one separator.
 */
module CommentScanner {
  import opened Common

  predicate Quote(c: char) {
    c == '"' || c == '\''
  }

  predicate Starts(s: string, a: char, b: char) {
    |s| >= 2 && s[0] == a && s[1] == b
  }

  /** Length up to and including the first newline. */
  function LineEnd(s: string): (r: Option<nat>)
    ensures r.Some? ==> 0 < r.value <= |s| && s[r.value - 1] == '\n'
  {
    if s == "" then None else if s[0] == '\n' then Some(1) else Plus(LineEnd(s[1..]), 1)
  }

  /** Length up to and including the first star-slash. */
  function BlockEnd(s: string): (r: Option<nat>)
    ensures r.Some? ==> 2 <= r.value <= |s| && s[r.value - 2] == '*' && s[r.value - 1] == '/'
  {
    if |s| < 2 then None else if Starts(s, '*', '/') then Some(2) else Plus(BlockEnd(s[1..]), 1)
  }

  /** Length of the rest of a literal, up to and including its closing quote. */
  function LiteralEnd(s: string, q: char): (r: Option<nat>)
    ensures r.Some? ==> 0 < r.value <= |s| && s[r.value - 1] == q
  {
    if s == "" then None
    else if s[0] == '\\' && |s| > 1 then Plus(LiteralEnd(s[2..], q), 2)
    else if s[0] == q then Some(1)
    else Plus(LiteralEnd(s[1..], q), 1)
  }

  function Plus(r: Option<nat>, n: nat): Option<nat> {
    if r.Some? then Some(r.value + n) else None
  }

  function Prepend(s: string, r: Result<string>): Result<string> {
    if r.Ok? then Ok(s + r.value) else Rejected
  }

  /** The scan, piece by piece. */
  function Strip(s: string): Result<string>
    decreases |s|
  {
    if s == "" then Ok("")
    else if Quote(s[0]) then
      var end := LiteralEnd(s[1..], s[0]);
      if end.None? then Rejected else Prepend(s[..end.value + 1], Strip(s[end.value + 1..]))
    else if Starts(s, '/', '/') then
      var end := LineEnd(s[2..]);
      if end.None? then Ok(" ") else Prepend("\n", Strip(s[end.value + 2..]))
    else if Starts(s, '/', '*') then
      var end := BlockEnd(s[2..]);
      if end.None? then Rejected else Prepend(" ", Strip(s[end.value + 2..]))
    else Prepend([s[0]], Strip(s[1..]))
  }

  /** The scan resumed inside a literal. */
  function StripLiteral(s: string, q: char): Result<string> {
    var end := LiteralEnd(s, q);
    if end.None? then Rejected else Prepend(s[..end.value], Strip(s[end.value..]))
  }

  // ---------------------------------------------------------------------------------------
  // The loop

  /** Where the scan stands: the result so far, and what the rest will add. */
  ghost predicate Standing(source: string, index: nat, quote: Option<char>, result: string)
    requires index <= |source|
  {
    Strip(source) == Prepend(result, if quote.Some? then StripLiteral(source[index..], quote.value)
                                     else Strip(source[index..]))
  }

  lemma PrependTwice(a: string, b: string, r: Result<string>)
    ensures Prepend(a, Prepend(b, r)) == Prepend(a + b, r)
  {
    if r.Ok? {
      assert a + (b + r.value) == (a + b) + r.value;
    }
  }

  /** One step inside a literal. */
  lemma LiteralStep(s: string, q: char)
    requires s != ""
    ensures StripLiteral(s, q)
         == if s[0] == '\\' && |s| > 1 then Prepend(s[..2], StripLiteral(s[2..], q))
            else if s[0] == q then Prepend(s[..1], Strip(s[1..]))
            else Prepend(s[..1], StripLiteral(s[1..], q))
  {
    hide Strip;
    var n := if s[0] == '\\' && |s| > 1 then 2 else 1;
    if n == 2 || s[0] != q {
      var end := LiteralEnd(s[n..], q);
      if end.Some? {
        assert s[..end.value + n] == s[..n] + s[n..][..end.value];
        assert s[end.value + n..] == s[n..][end.value..];
        PrependTwice(s[..n], s[n..][..end.value], Strip(s[end.value + n..]));
      }
    }
  }

  /** Opening a literal. */
  lemma LiteralOpens(s: string)
    requires s != "" && Quote(s[0])
    ensures Strip(s) == Prepend(s[..1], StripLiteral(s[1..], s[0]))
  {
    var end := LiteralEnd(s[1..], s[0]);
    if end.Some? {
      var rest := Strip(s[end.value + 1..]);
      assert s[..end.value + 1] == s[..1] + s[1..][..end.value];
      assert s[end.value + 1..] == s[1..][end.value..];
      PrependTwice(s[..1], s[1..][..end.value], rest);
    }
  }

  method StripComments(source: string) returns (r: Result<string>)
    ensures r == Strip(source)
  {
    hide Strip, StripLiteral;
    var result, index, quote: Option<char> := "", 0, None;
    StandsAtStart(source);
    while index < |source|
      invariant index <= |source| && Standing(source, index, quote, result)
    {
      var character := source[index];
      if quote.Some? {
        StandsInLiteral(source, index, quote.value, result);
        result := result + [character];
        if character == '\\' && index + 1 < |source| {
          index := index + 1;
          result := result + [source[index]];
        } else if character == quote.value {
          quote := None;
        }
        index := index + 1;
        continue;
      }
      StandsInCode(source, index, result);
      if Quote(character) {
        quote := Some(character);
        result := result + [character];
        index := index + 1;
        continue;
      }
      if Starts(source[index..], '/', '/') {
        var end := LineEnd(source[index + 2..]);
        if end.None? {
          return Ok(result + " ");
        }
        result := result + "\n";
        index := index + 2 + end.value;
        continue;
      }
      if Starts(source[index..], '/', '*') {
        var end := BlockEnd(source[index + 2..]);
        if end.None? {
          return Rejected;
        }
        result := result + " ";
        index := index + 2 + end.value;
        continue;
      }
      result := result + [character];
      index := index + 1;
    }
    StandsAtEnd(source, quote, result);
    return if quote.Some? then Rejected else Ok(result);
  }

  lemma StandsAtStart(source: string)
    ensures Standing(source, 0, None, "")
  {
    hide Strip;
    assert source[0..] == source;
    if Strip(source).Ok? {
      assert "" + Strip(source).value == Strip(source).value;
    }
  }

  lemma StandsAtEnd(source: string, quote: Option<char>, result: string)
    requires Standing(source, |source|, quote, result)
    ensures Strip(source) == if quote.Some? then Rejected else Ok(result)
  {
    assert source[|source|..] == "" && result + "" == result;
  }

  lemma StandsInLiteral(source: string, index: nat, q: char, result: string)
    requires index < |source| && Standing(source, index, Some(q), result)
    ensures if source[index] == '\\' && index + 1 < |source|
            then Standing(source, index + 2, Some(q), result + [source[index]] + [source[index + 1]])
            else if source[index] == q then Standing(source, index + 1, None, result + [source[index]])
            else Standing(source, index + 1, Some(q), result + [source[index]])
  {
    hide Strip, StripLiteral;
    var s := source[index..];
    LiteralStep(s, q);
    assert s[1..] == source[index + 1..] && s[..1] == [source[index]];
    if source[index] == '\\' && index + 1 < |source| {
      assert s[2..] == source[index + 2..] && s[..2] == [source[index]] + [source[index + 1]];
      PrependTwice(result, s[..2], StripLiteral(s[2..], q));
      assert result + s[..2] == result + [source[index]] + [source[index + 1]];
    } else if source[index] == q {
      PrependTwice(result, s[..1], Strip(s[1..]));
    } else {
      PrependTwice(result, s[..1], StripLiteral(s[1..], q));
    }
  }

  /** One step outside literals. */
  lemma CodeStep(s: string)
    requires s != ""
    ensures Strip(s)
         == if Quote(s[0]) then Prepend(s[..1], StripLiteral(s[1..], s[0]))
            else if Starts(s, '/', '/') then
              var end := LineEnd(s[2..]);
              if end.None? then Ok(" ") else Prepend("\n", Strip(s[2..][end.value..]))
            else if Starts(s, '/', '*') then
              var end := BlockEnd(s[2..]);
              if end.None? then Rejected else Prepend(" ", Strip(s[2..][end.value..]))
            else Prepend(s[..1], Strip(s[1..]))
  {
    hide StripLiteral, LineEnd, BlockEnd, LiteralEnd;
    if Quote(s[0]) {
      LiteralOpens(s);
    } else if Starts(s, '/', '/') {
      var end := LineEnd(s[2..]);
      if end.Some? {
        assert s[end.value + 2..] == s[2..][end.value..];
      }
    } else if Starts(s, '/', '*') {
      var end := BlockEnd(s[2..]);
      if end.Some? {
        assert s[end.value + 2..] == s[2..][end.value..];
      }
    } else {
      assert s[..1] == [s[0]];
    }
  }

  lemma StandsInCode(source: string, index: nat, result: string)
    requires index < |source| && Standing(source, index, None, result)
    ensures var s := source[index..];
            if Quote(s[0]) then Standing(source, index + 1, Some(s[0]), result + [s[0]])
            else if Starts(s, '/', '/') then
              var end := LineEnd(source[index + 2..]);
              if end.None? then Strip(source) == Ok(result + " ")
              else Standing(source, index + 2 + end.value, None, result + "\n")
            else if Starts(s, '/', '*') then
              var end := BlockEnd(source[index + 2..]);
              if end.None? then Strip(source) == Rejected
              else Standing(source, index + 2 + end.value, None, result + " ")
            else Standing(source, index + 1, None, result + [s[0]])
  {
    hide Strip, StripLiteral, LineEnd, BlockEnd;
    var s := source[index..];
    CodeStep(s);
    assert s[1..] == source[index + 1..] && s[..1] == [s[0]];
    if Quote(s[0]) {
      PrependTwice(result, s[..1], StripLiteral(s[1..], s[0]));
    } else if Starts(s, '/', '/') {
      assert s[2..] == source[index + 2..];
      var end := LineEnd(s[2..]);
      if end.Some? {
        assert s[2..][end.value..] == source[index + 2 + end.value..];
        PrependTwice(result, "\n", Strip(s[2..][end.value..]));
      }
    } else if Starts(s, '/', '*') {
      assert s[2..] == source[index + 2..];
      var end := BlockEnd(s[2..]);
      if end.Some? {
        assert s[2..][end.value..] == source[index + 2 + end.value..];
        PrependTwice(result, " ", Strip(s[2..][end.value..]));
      }
    } else {
      PrependTwice(result, s[..1], Strip(s[1..]));
    }
  }

  // ---------------------------------------------------------------------------------------
  // The pieces of a source

  datatype Piece =
    | Plain(c: char) | Literal(text: string)
    | LineComment(text: string) | LastComment(text: string) | BlockComment(text: string)

  function TextOf(p: Piece): string {
    match p
    case Plain(c) => [c]
    case Literal(text) => text
    case LineComment(text) => text
    case LastComment(text) => text
    case BlockComment(text) => text
  }

  /** What the scan leaves of a piece: comments become one separator. */
  function Normal(p: Piece): Piece {
    match p
    case Plain(c) => p
    case Literal(text) => p
    case LineComment(_) => Plain('\n')
    case LastComment(_) => Plain(' ')
    case BlockComment(_) => Plain(' ')
  }

  function Normals(ps: seq<Piece>): seq<Piece> {
    if ps == [] then [] else [Normal(ps[0])] + Normals(ps[1..])
  }

  function Source(ps: seq<Piece>): string {
    if ps == [] then "" else TextOf(ps[0]) + Source(ps[1..])
  }

  /** A literal runs from its quote to the first unescaped equal quote, a line comment to its
      first newline, a block comment to its first star-slash. */
  predicate Proper(p: Piece) {
    match p
    case Plain(c) => !Quote(c)
    case Literal(text) => text != "" && Quote(text[0]) && LiteralEnd(text[1..], text[0]) == Some(|text| - 1)
    case LineComment(text) => Starts(text, '/', '/') && LineEnd(text[2..]) == Some(|text| - 2)
    case LastComment(text) => Starts(text, '/', '/') && LineEnd(text[2..]).None?
    case BlockComment(text) => Starts(text, '/', '*') && BlockEnd(text[2..]) == Some(|text| - 2)
  }

  predicate IsComment(p: Piece) {
    p.LineComment? || p.LastComment? || p.BlockComment?
  }

  function FirstPiece(s: string): (r: Option<Piece>)
    requires s != ""
    ensures r.Some? ==> 0 < |TextOf(r.value)| <= |s| && TextOf(r.value) == s[..|TextOf(r.value)|]
  {
    if Quote(s[0]) then
      var end := LiteralEnd(s[1..], s[0]);
      if end.None? then None else Some(Literal(s[..end.value + 1]))
    else if Starts(s, '/', '/') then
      var end := LineEnd(s[2..]);
      Some(if end.None? then LastComment(s) else LineComment(s[..end.value + 2]))
    else if Starts(s, '/', '*') then
      var end := BlockEnd(s[2..]);
      if end.None? then None else Some(BlockComment(s[..end.value + 2]))
    else Some(Plain(s[0]))
  }

  function Pieces(s: string): Result<seq<Piece>>
    decreases |s|
  {
    if s == "" then Ok([])
    else
      var p := FirstPiece(s);
      if p.None? then Rejected
      else
        var rest :- Pieces(s[|TextOf(p.value)|..]);
        Ok([p.value] + rest)
  }

  // Ends found in a prefix are found again whatever follows.

  lemma DropFromPrefix(s: string, k: nat, n: nat, more: string)
    requires n <= k <= |s|
    ensures (s[..k] + more)[n..] == s[n..][..k - n] + more
  {
  }

  lemma {:induction false} LiteralEndIsLocal(s: string, q: char, more: string)
    requires Quote(q) && LiteralEnd(s, q).Some?
    ensures var k := LiteralEnd(s, q).value;
            LiteralEnd(s[..k] + more, q) == Some(k)
    decreases |s|
  {
    var k := LiteralEnd(s, q).value;
    if s[0] == '\\' && |s| > 1 {
      LiteralEndIsLocal(s[2..], q, more);
      DropFromPrefix(s, k, 2, more);
    } else if s[0] != q {
      LiteralEndIsLocal(s[1..], q, more);
      DropFromPrefix(s, k, 1, more);
    }
  }

  lemma {:induction false} LineEndIsLocal(s: string)
    requires LineEnd(s).Some?
    ensures LineEnd(s[..LineEnd(s).value]) == LineEnd(s)
    decreases |s|
  {
    var k := LineEnd(s).value;
    if s[0] != '\n' {
      LineEndIsLocal(s[1..]);
      assert s[..k][1..] == s[1..][..k - 1];
    }
  }

  lemma {:induction false} BlockEndIsLocal(s: string)
    requires BlockEnd(s).Some?
    ensures BlockEnd(s[..BlockEnd(s).value]) == BlockEnd(s)
    decreases |s|
  {
    var k := BlockEnd(s).value;
    if !Starts(s, '*', '/') {
      BlockEndIsLocal(s[1..]);
      assert s[..k][1..] == s[1..][..k - 1];
    }
  }

  lemma FirstPieceIsProper(s: string)
    requires s != "" && FirstPiece(s).Some?
    ensures Proper(FirstPiece(s).value)
  {
    hide LiteralEnd, LineEnd, BlockEnd;
    var p := FirstPiece(s).value;
    match p
    case Plain(_) =>
    case Literal(text) =>
      LiteralEndIsLocal(s[1..], s[0], "");
      assert text[1..] == s[1..][..|text| - 1] + "";
    case LineComment(text) =>
      LineEndIsLocal(s[2..]);
      assert text[2..] == s[2..][..|text| - 2];
    case LastComment(text) =>
    case BlockComment(text) =>
      BlockEndIsLocal(s[2..]);
      assert text[2..] == s[2..][..|text| - 2];
  }

  /** Rendering a first piece and then the rest is what the scan does. */
  lemma StripIsPiecewise(s: string)
    requires s != ""
    ensures Strip(s)
         == if FirstPiece(s).None? then Rejected
            else Prepend(TextOf(Normal(FirstPiece(s).value)), Strip(s[|TextOf(FirstPiece(s).value)|..]))
  {
    hide LiteralEnd, LineEnd, BlockEnd;
    if FirstPiece(s).Some? && FirstPiece(s).value.LastComment? {
      assert s[|s|..] == "" && " " + "" == " ";
      assert Strip("") == Ok("");
    }
  }

  /** The source splits into proper pieces, losing nothing, and the output is the same pieces
      with every comment turned into one separator; both exist together or not at all. */
  lemma {:induction false} ScanKeepsPieces(s: string)
    ensures Pieces(s).Ok? <==> Strip(s).Ok?
    ensures Pieces(s).Ok? ==>
              && Source(Pieces(s).value) == s
              && Strip(s) == Ok(Source(Normals(Pieces(s).value)))
              && (forall p :: p in Pieces(s).value ==> Proper(p))
    decreases |s|
  {
    hide Strip, FirstPiece, Proper;
    if s != "" {
      StripIsPiecewise(s);
      if FirstPiece(s).Some? {
        var p := FirstPiece(s).value;
        var rest := s[|TextOf(p)|..];
        ScanKeepsPieces(rest);
        FirstPieceIsProper(s);
        assert s == TextOf(p) + rest;
        if Pieces(s).Ok? {
          var ps := Pieces(s).value;
          assert ps[1..] == Pieces(rest).value && ps[0] == p;
        }
      }
    } else {
      StripOfEmpty();
    }
  }

  lemma StripOfEmpty()
    ensures Strip("") == Ok("")
  {
  }

  /** Running the lexer on the output finds exactly the normalised pieces: no comment opener
      outside a literal, every literal verbatim, no new opener formed. */
  lemma {:induction false} OutputPieces(s: string)
    requires Pieces(s).Ok?
    ensures Pieces(Source(Normals(Pieces(s).value))) == Ok(Normals(Pieces(s).value))
    decreases |s|
  {
    hide Strip, FirstPiece;
    if s != "" {
      var p := FirstPiece(s).value;
      var rest := s[|TextOf(p)|..];
      OutputPieces(rest);
      var ps := Pieces(s).value;
      assert ps[1..] == Pieces(rest).value;
      var tail := Source(Normals(ps[1..]));
      var out := TextOf(Normal(p)) + tail;
      FirstOfOutput(s, tail);
      assert out[|TextOf(Normal(p))|..] == tail;
    }
  }

  lemma FirstOfOutput(s: string, tail: string)
    requires s != "" && Pieces(s).Ok? && tail == Source(Normals(Pieces(s).value[1..]))
    ensures FirstPiece(TextOf(Normal(FirstPiece(s).value)) + tail) == Some(Normal(FirstPiece(s).value))
  {
    hide LiteralEnd, LineEnd, BlockEnd, Strip, Normals, Source;
    var p := FirstPiece(s).value;
    match p
    case Literal(text) => LiteralComesFirst(s, text, tail);
    case Plain(c) =>
      if c == '/' && tail != "" {
        SlashIsFollowed(s, tail);
      }
    case _ =>
  }

  lemma LiteralComesFirst(s: string, text: string, tail: string)
    requires s != "" && FirstPiece(s) == Some(Literal(text))
    ensures FirstPiece(text + tail) == Some(Literal(text))
  {
    hide LiteralEnd;
    LiteralEndIsLocal(s[1..], s[0], tail);
    assert (text + tail)[1..] == s[1..][..|text| - 1] + tail;
    assert (text + tail)[..|text|] == text;
  }

  /** A slash that is code is followed by nothing that could turn it into an opener. */
  lemma SlashIsFollowed(s: string, tail: string)
    requires s != "" && FirstPiece(s) == Some(Plain('/')) && Pieces(s).Ok?
    requires tail == Source(Normals(Pieces(s).value[1..])) && tail != ""
    ensures tail[0] != '/' && tail[0] != '*'
  {
  }

  /** The scan applied to its own output changes nothing. */
  lemma ScanIsIdempotent(s: string)
    requires Strip(s).Ok?
    ensures Strip(Strip(s).value) == Strip(s)
  {
    hide Strip, Pieces;
    ScanKeepsPieces(s);
    OutputPieces(s);
    var ps := Pieces(s).value;
    var out := Source(Normals(ps));
    ScanKeepsPieces(out);
    NormalsTwice(ps);
  }

  lemma {:induction false} NormalsTwice(ps: seq<Piece>)
    ensures Normals(Normals(ps)) == Normals(ps)
    ensures |Normals(ps)| == |ps|
    ensures forall i :: 0 <= i < |ps| ==> Normals(ps)[i] == Normal(ps[i]) && !IsComment(Normals(ps)[i])
  {
    if ps != [] {
      NormalsTwice(ps[1..]);
      assert Normals(ps)[1..] == Normals(ps[1..]);
      forall i | 0 <= i < |ps| ensures Normals(ps)[i] == Normal(ps[i]) && !IsComment(Normals(ps)[i]) {
        if i > 0 {
          assert Normals(ps)[i] == Normals(ps[1..])[i - 1];
        }
      }
    }
  }

  // ---------------------------------------------------------------------------------------
  // Line splices

  function DropCrLfSplices(s: string): (r: string)
    ensures |r| <= |s|
  {
    if s == "" then ""
    else if |s| >= 3 && s[0] == '\\' && s[1] == '\r' && s[2] == '\n' then DropCrLfSplices(s[3..])
    else [s[0]] + DropCrLfSplices(s[1..])
  }

  function DropLfSplices(s: string): (r: string)
    ensures |r| <= |s|
  {
    if s == "" then ""
    else if Starts(s, '\\', '\n') then DropLfSplices(s[2..])
    else [s[0]] + DropLfSplices(s[1..])
  }

  /** What the scan sees once the splices are removed. */
  function Unspliced(s: string): string {
    DropLfSplices(DropCrLfSplices(s))
  }

  /** The whole function: splice removal, then the scan. */
  function StripSource(s: string): Result<string> {
    Strip(Unspliced(s))
  }

  predicate HasLfSplice(s: string) {
    exists i :: 0 <= i < |s| - 1 && s[i] == '\\' && s[i + 1] == '\n'
  }

  predicate HasCrLfSplice(s: string) {
    exists i :: 0 <= i < |s| - 2 && s[i] == '\\' && s[i + 1] == '\r' && s[i + 2] == '\n'
  }

  lemma {:induction false} DropLfExact(s: string)
    ensures HasLfSplice(s) ==> |DropLfSplices(s)| < |s|
    ensures !HasLfSplice(s) ==> DropLfSplices(s) == s
  {
    if s != "" && !Starts(s, '\\', '\n') {
      DropLfExact(s[1..]);
      if HasLfSplice(s) {
        var i :| 0 <= i < |s| - 1 && s[i] == '\\' && s[i + 1] == '\n';
        assert s[1..][i - 1] == '\\' && s[1..][i] == '\n';
        assert HasLfSplice(s[1..]) by {
          var j := i - 1;
          assert 0 <= j < |s[1..]| - 1 && s[1..][j] == '\\' && s[1..][j + 1] == '\n';
        }
      } else {
        forall i | 0 <= i < |s[1..]| - 1 ensures !(s[1..][i] == '\\' && s[1..][i + 1] == '\n') {
          assert s[1..][i] == s[i + 1] && s[1..][i + 1] == s[i + 1 + 1];
        }
      }
    }
  }

  lemma {:induction false} DropCrLfExact(s: string)
    ensures HasCrLfSplice(s) ==> |DropCrLfSplices(s)| < |s|
    ensures !HasCrLfSplice(s) ==> DropCrLfSplices(s) == s
  {
    if s != "" && !(|s| >= 3 && s[0] == '\\' && s[1] == '\r' && s[2] == '\n') {
      DropCrLfExact(s[1..]);
      if HasCrLfSplice(s) {
        var i :| 0 <= i < |s| - 2 && s[i] == '\\' && s[i + 1] == '\r' && s[i + 2] == '\n';
        assert HasCrLfSplice(s[1..]) by {
          var j := i - 1;
          assert 0 <= j < |s[1..]| - 2 && s[1..][j] == '\\' && s[1..][j + 1] == '\r' && s[1..][j + 2] == '\n';
        }
      } else {
        forall i | 0 <= i < |s[1..]| - 2
          ensures !(s[1..][i] == '\\' && s[1..][i + 1] == '\r' && s[1..][i + 2] == '\n')
        {
          assert s[1..][i] == s[i + 1] && s[1..][i + 1] == s[i + 1 + 1] && s[1..][i + 2] == s[i + 1 + 2];
        }
      }
    }
  }

  lemma {:induction false} StripNeverGrows(s: string)
    ensures Strip(s).Ok? ==> |Strip(s).value| <= |s|
    decreases |s|
  {
    hide LiteralEnd, LineEnd, BlockEnd, Strip;
    if s == "" {
      StripOfEmpty();
    } else {
      StripIsPiecewise(s);
      if FirstPiece(s).Some? {
        StripNeverGrows(s[|TextOf(FirstPiece(s).value)|..]);
      }
    }
  }

  // Where a splice of the output comes from, told from the pieces of the input.

  /** The piece leaves a newline in the output: one that was code, or a line comment. */
  predicate BreaksLine(p: Piece) {
    p == Plain('\n') || p.LineComment?
  }

  /** A literal that holds a splice, or a backslash right before a newline-to-be. */
  predicate LeavesLfAt(ps: seq<Piece>, i: nat)
    requires i < |ps|
  {
    || (ps[i].Literal? && HasLfSplice(ps[i].text))
    || (ps[i] == Plain('\\') && i + 1 < |ps| && BreaksLine(ps[i + 1]))
  }

  /** The same with a carriage return in between. */
  predicate LeavesCrLfAt(ps: seq<Piece>, i: nat)
    requires i < |ps|
  {
    || (ps[i].Literal? && HasCrLfSplice(ps[i].text))
    || (ps[i] == Plain('\\') && i + 2 < |ps| && ps[i + 1] == Plain('\r') && BreaksLine(ps[i + 2]))
  }

  /** The scan of these pieces leaves a splice behind. */
  predicate LeavesSplice(ps: seq<Piece>) {
    exists i :: 0 <= i < |ps| && (LeavesLfAt(ps, i) || LeavesCrLfAt(ps, i))
  }

  lemma LfSpliceOfBoth(a: string, b: string)
    requires a != ""
    ensures HasLfSplice(a + b)
            <==> HasLfSplice(a) || HasLfSplice(b) || (a[|a| - 1] == '\\' && b != "" && b[0] == '\n')
  {
    var n, c := |a|, a + b;
    if HasLfSplice(b) {
      var i :| 0 <= i < |b| - 1 && b[i] == '\\' && b[i + 1] == '\n';
      var k := n + i;
      assert c[k] == '\\' && c[k + 1] == '\n';
    }
    if HasLfSplice(a) {
      var i :| 0 <= i < n - 1 && a[i] == '\\' && a[i + 1] == '\n';
      assert c[i] == '\\' && c[i + 1] == '\n';
    }
    if HasLfSplice(c) {
      var i :| 0 <= i < |c| - 1 && c[i] == '\\' && c[i + 1] == '\n';
      if i >= n {
        var k := i - n;
        assert b[k] == '\\' && b[k + 1] == '\n';
      } else if i + 1 < n {
        assert a[i] == '\\' && a[i + 1] == '\n';
      }
    }
    if a[n - 1] == '\\' && b != "" && b[0] == '\n' {
      var k := n - 1;
      assert c[k] == '\\' && c[k + 1] == '\n';
    }
  }

  /** Of a single character, or of a text that does not end in a backslash or carriage return. */
  lemma CrLfSpliceOfBoth(a: string, b: string)
    requires |a| == 1 || (a != "" && a[|a| - 1] != '\\' && a[|a| - 1] != '\r')
    ensures HasCrLfSplice(a + b)
            <==> HasCrLfSplice(a) || HasCrLfSplice(b)
                 || (a[|a| - 1] == '\\' && |b| >= 2 && b[0] == '\r' && b[1] == '\n')
  {
    var n, c := |a|, a + b;
    if HasCrLfSplice(b) {
      var i :| 0 <= i < |b| - 2 && b[i] == '\\' && b[i + 1] == '\r' && b[i + 2] == '\n';
      var k := n + i;
      assert c[k] == '\\' && c[k + 1] == '\r' && c[k + 2] == '\n';
    }
    if HasCrLfSplice(a) {
      var i :| 0 <= i < n - 2 && a[i] == '\\' && a[i + 1] == '\r' && a[i + 2] == '\n';
      assert c[i] == '\\' && c[i + 1] == '\r' && c[i + 2] == '\n';
    }
    if HasCrLfSplice(c) {
      var i :| 0 <= i < |c| - 2 && c[i] == '\\' && c[i + 1] == '\r' && c[i + 2] == '\n';
      if i >= n {
        var k := i - n;
        assert b[k] == '\\' && b[k + 1] == '\r' && b[k + 2] == '\n';
      } else if i + 2 < n {
        assert a[i] == '\\' && a[i + 1] == '\r' && a[i + 2] == '\n';
      }
    }
    if a[n - 1] == '\\' && |b| >= 2 && b[0] == '\r' && b[1] == '\n' {
      var k := n - 1;
      assert c[k] == '\\' && c[k + 1] == '\r' && c[k + 2] == '\n';
    }
  }

  /** How the output of proper pieces begins. */
  lemma OutputBegins(ps: seq<Piece>)
    requires ps != [] && Proper(ps[0])
    ensures var out := Source(Normals(ps));
            && out != "" && (out[0] == '\n' <==> BreaksLine(ps[0])) && (out[0] == '\r' <==> ps[0] == Plain('\r'))
            && (ps[0].Plain? ==> out[1..] == Source(Normals(ps[1..])))
  {
    assert Normals(ps)[1..] == Normals(ps[1..]);
  }

  lemma {:induction false} OutputSplices(ps: seq<Piece>)
    requires forall p :: p in ps ==> Proper(p)
    ensures HasLfSplice(Source(Normals(ps))) || HasCrLfSplice(Source(Normals(ps))) <==> LeavesSplice(ps)
  {
    hide Proper, HasLfSplice, HasCrLfSplice, LeavesSplice, Normal, TextOf, Source, Normals, LeavesLfAt, LeavesCrLfAt;
    if ps == [] {
      EmptyHasNoSplice();
    } else {
      OutputSplices(ps[1..]);
      FirstPieceSplices(ps);
      SpliceOfRest(ps);
    }
  }

  lemma EmptyHasNoSplice()
    ensures !HasLfSplice(Source(Normals([]))) && !HasCrLfSplice(Source(Normals([]))) && !LeavesSplice([])
  {
  }

  /** A splice of the output lies in the rest of it, or begins with the first piece. */
  lemma FirstPieceSplices(ps: seq<Piece>)
    requires ps != [] && forall p :: p in ps ==> Proper(p)
    ensures var (out, tail) := (Source(Normals(ps)), Source(Normals(ps[1..])));
            && (HasLfSplice(out) <==> HasLfSplice(tail) || LeavesLfAt(ps, 0))
            && (HasCrLfSplice(out) <==> HasCrLfSplice(tail) || LeavesCrLfAt(ps, 0))
  {
    hide Proper, HasLfSplice, HasCrLfSplice, Normal, TextOf, BreaksLine, Source, Normals;
    var text, tail := TextOf(Normal(ps[0])), Source(Normals(ps[1..]));
    OutputUnfolds(ps);
    PieceEnds(ps[0]);
    LfSpliceOfBoth(text, tail);
    CrLfSpliceOfBoth(text, tail);
    RestBegins(ps[1..]);
  }

  lemma OutputUnfolds(ps: seq<Piece>)
    requires ps != []
    ensures Source(Normals(ps)) == TextOf(Normal(ps[0])) + Source(Normals(ps[1..]))
  {
    assert Normals(ps)[1..] == Normals(ps[1..]);
  }

  /** Whether an output begins with a newline, or with a carriage return and a newline. */
  lemma RestBegins(ps: seq<Piece>)
    requires forall p :: p in ps ==> Proper(p)
    ensures var out := Source(Normals(ps));
            && (out != "" && out[0] == '\n' <==> ps != [] && BreaksLine(ps[0]))
            && (|out| >= 2 && out[0] == '\r' && out[1] == '\n'
                <==> |ps| >= 2 && ps[0] == Plain('\r') && BreaksLine(ps[1]))
  {
    hide Proper, Normal, TextOf, Source, Normals;
    if ps == [] {
      EmptyOutput();
    } else {
      OutputBegins(ps);
      if ps[0].Plain? && |ps| > 1 {
        OutputBegins(ps[1..]);
      } else if ps[0].Plain? {
        assert ps[1..] == [];
        EmptyOutput();
      }
    }
  }

  lemma EmptyOutput()
    ensures Source(Normals([])) == ""
  {
  }

  lemma PieceEnds(p: Piece)
    requires Proper(p)
    ensures var text := TextOf(Normal(p));
            && text != ""
            && (p.Literal? ==> text == p.text && text[|text| - 1] != '\\' && text[|text| - 1] != '\r')
            && (!p.Literal? ==> |text| == 1 && !HasLfSplice(text) && !HasCrLfSplice(text))
            && (text[|text| - 1] == '\\' <==> p == Plain('\\'))
  {
  }

  lemma SpliceOfRest(ps: seq<Piece>)
    requires ps != []
    ensures LeavesSplice(ps) <==> LeavesLfAt(ps, 0) || LeavesCrLfAt(ps, 0) || LeavesSplice(ps[1..])
  {
    hide HasLfSplice, HasCrLfSplice;
    var rest := ps[1..];
    if LeavesSplice(rest) {
      var i :| 0 <= i < |rest| && (LeavesLfAt(rest, i) || LeavesCrLfAt(rest, i));
      var k := i + 1;
      assert LeavesLfAt(ps, k) || LeavesCrLfAt(ps, k);
    }
    if LeavesSplice(ps) {
      var i :| 0 <= i < |ps| && (LeavesLfAt(ps, i) || LeavesCrLfAt(ps, i));
      if i > 0 {
        var k := i - 1;
        assert LeavesLfAt(rest, k) || LeavesCrLfAt(rest, k);
      }
    }
  }

  /** The output holds a splice exactly when the pieces of the unspliced source leave one. */
  lemma SpliceComesFromPieces(s: string)
    requires StripSource(s).Ok?
    ensures Pieces(Unspliced(s)).Ok?
    ensures var t := StripSource(s).value;
            HasLfSplice(t) || HasCrLfSplice(t) <==> LeavesSplice(Pieces(Unspliced(s)).value)
  {
    hide Strip, Pieces, HasLfSplice, HasCrLfSplice, LeavesSplice;
    ScanKeepsPieces(Unspliced(s));
    OutputSplices(Pieces(Unspliced(s)).value);
  }

  /** The whole function gives a stable output exactly for the sources whose pieces leave no
      splice behind. */
  lemma StableExactlyWithoutSplice(s: string)
    requires StripSource(s).Ok?
    ensures Pieces(Unspliced(s)).Ok?
    ensures StripSource(StripSource(s).value) == StripSource(s) <==> !LeavesSplice(Pieces(Unspliced(s)).value)
  {
    hide Strip, Pieces, LeavesSplice;
    var t := StripSource(s).value;
    SpliceComesFromPieces(s);
    ScanIsIdempotent(Unspliced(s));
    DropCrLfExact(t);
    DropLfExact(DropCrLfSplices(t));
    StripNeverGrows(Unspliced(t));
  }

  /** Two backslashes and two newlines: removing the inner splice leaves a new one behind, so
      the output is not stable. */
  lemma SpliceCanReappear()
    ensures StripSource("\\\\\n\n") == Ok("\\\n")
    ensures StripSource("\\\n") == Ok("")
  {
    var s := "\\\\\n\n";
    assert s[1..][1..] == "\n\n" && s[1..] == "\\\n\n" && s[1..][2..] == "\n";
    assert "\n"[1..] == "" && "\n\n"[1..] == "\n" && "\\\n"[1..] == "\n" && "\\\n"[2..] == "";
    assert DropCrLfSplices("\n") == "\n" && DropCrLfSplices("\n\n") == "\n\n";
    assert DropCrLfSplices("\\\n\n") == "\\\n\n";
    assert DropCrLfSplices(s) == s;
    assert DropLfSplices("\n") == "\n" && DropLfSplices("\\\n\n") == "\n";
    assert DropLfSplices(s) == "\\\n";
    assert Strip("\n") == Ok("\n");
    assert Strip("\\\n") == Ok("\\\n");
    assert DropCrLfSplices("\\\n") == "\\\n" && DropLfSplices("\\\n") == "";
  }

  /** A source that is one line comment is left as its newline. */
  lemma StripOfLineComment(s: string)
    requires Starts(s, '/', '/') && LineEnd(s[2..]) == Some(|s| - 2)
    ensures Strip(s) == Ok("\n")
  {
    hide LineEnd;
    StripOfEmpty();
    assert s[|s|..] == "" && "\n" + "" == "\n";
  }

  lemma StripOfBackslash(s: string)
    requires s != "" && s[0] == '\\'
    ensures Strip(s) == Prepend("\\", Strip(s[1..]))
  {
    assert [s[0]] == "\\";
  }

  lemma NoSpliceThere()
    ensures !HasLfSplice("\\//x\n") && !HasCrLfSplice("\\//x\n")
  {
  }

  lemma ScanOfComment()
    ensures Strip("\\//x\n") == Ok("\\\n")
  {
    hide Strip;
    var s, c := "\\//x\n", "//x\n";
    assert s[1..] == c && c[2..] == "x\n" && "x\n"[1..] == "\n";
    assert LineEnd("\n") == Some(1);
    assert LineEnd("x\n") == Some(2);
    StripOfLineComment(c);
    StripOfBackslash(s);
    assert "\\" + "\n" == "\\\n";
  }

  /** No splice at all in the source: a line comment after a backslash becomes the newline that
      makes one. */
  lemma CommentCanSplice()
    ensures !HasLfSplice("\\//x\n") && !HasCrLfSplice("\\//x\n")
    ensures StripSource("\\//x\n") == Ok("\\\n")
    ensures StripSource("\\\n") == Ok("")
  {
    hide Strip, HasLfSplice, HasCrLfSplice, DropLfSplices, DropCrLfSplices;
    var s := "\\//x\n";
    NoSpliceThere();
    DropCrLfExact(s);
    DropLfExact(s);
    ScanOfComment();
    SpliceCanReappear();
  }
}
