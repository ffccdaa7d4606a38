/** The tokenizer (src/lex.rs). The `logos` derive turns each `#[regex]` or
    `#[token]` attribute into a matcher; here every token class is a
    predicate over the matched text. The matching engine itself (longest
    match, priorities) is an oracle: it supplies the sequence of raw
    matches `(Result<Token>, slice)`, and `Lex` is the loop that turns that
    sequence into `(Token, lexeme)` pairs. */
module Lex {
  import opened Wrappers

  datatype Token =
    | Id | FileName | CString | CFloat | CInt | CChar
    | LParen | RParen | Minus | Plus | Star | Slash
    | EqEq | BangEq | Le | Lt | Ge | Gt | Bang
    | WS | Command

  /** The `{:?}` rendering of a token: its variant name. */
  function DebugName(t: Token): string {
    match t
    case Id => "Id"
    case FileName => "FileName"
    case CString => "CString"
    case CFloat => "CFloat"
    case CInt => "CInt"
    case CChar => "CChar"
    case LParen => "LParen"
    case RParen => "RParen"
    case Minus => "Minus"
    case Plus => "Plus"
    case Star => "Star"
    case Slash => "Slash"
    case EqEq => "EqEq"
    case BangEq => "BangEq"
    case Le => "Le"
    case Lt => "Lt"
    case Ge => "Ge"
    case Gt => "Gt"
    case Bang => "Bang"
    case WS => "WS"
    case Command => "Command"
  }

  // ---------------------------------------------------------------------
  // Character classes

  predicate IsLetter(c: char) { 'a' <= c <= 'z' || 'A' <= c <= 'Z' }
  predicate IsDigit(c: char) { '0' <= c <= '9' }
  predicate IsHexDigit(c: char) { IsDigit(c) || 'a' <= c <= 'f' || 'A' <= c <= 'F' }
  predicate IsOctDigit(c: char) { '0' <= c <= '7' }
  predicate IsBinDigit(c: char) { c == '0' || c == '1' }
  predicate IsIdStart(c: char) { IsLetter(c) || c == '_' }
  predicate IsIdChar(c: char) { IsIdStart(c) || IsDigit(c) }
  /** `[ \t\n\f]` */
  predicate IsSpace(c: char) { c == ' ' || c == '\t' || c == '\n' || c == '\U{000C}' }

  predicate AllDigits(s: string) { forall i :: 0 <= i < |s| ==> IsDigit(s[i]) }
  /** `[0-9]+` */
  predicate Digits(s: string) { |s| >= 1 && AllDigits(s) }

  /** `s` without one leading `+` or `-`, if it has one (`[-+]?`). */
  function OptSign(s: string): (r: string)
    ensures |r| <= |s| && r == s[|s| - |r|..]
  {
    if |s| > 0 && (s[0] == '+' || s[0] == '-') then s[1..] else s
  }

  /** The index of the first `e` or `E` in `s`, or `|s|` if there is none. */
  function ExponentStart(s: string): (k: nat)
    ensures k <= |s|
    ensures forall j :: 0 <= j < k ==> s[j] != 'e' && s[j] != 'E'
    ensures k < |s| ==> s[k] == 'e' || s[k] == 'E'
  {
    if s == [] then 0
    else if s[0] == 'e' || s[0] == 'E' then 0
    else 1 + ExponentStart(s[1..])
  }

  /** The index of the first `.` in `s`, or `|s|` if there is none. */
  function PointIndex(s: string): (k: nat)
    ensures k <= |s|
    ensures forall j :: 0 <= j < k ==> s[j] != '.'
    ensures k < |s| ==> s[k] == '.'
  {
    if s == [] then 0
    else if s[0] == '.' then 0
    else 1 + PointIndex(s[1..])
  }

  // ---------------------------------------------------------------------
  // Token classes (src/lex.rs:5-57)

  /** `[a-zA-Z_][a-zA-Z0-9_]*` */
  predicate IsId(s: string) {
    |s| >= 1 && IsIdStart(s[0]) && forall i :: 1 <= i < |s| ==> IsIdChar(s[i])
  }

  /** `[a-zA-Z_][a-zA-Z0-9_]*(\.[a-zA-Z0-9_]+)+`: an identifier, then one
      or more dot-separated segments of identifier characters; that is, an
      identifier start, at least one dot, only identifier characters and
      dots, no two dots in a row and no dot at the end. */
  predicate IsFileName(s: string) {
    && |s| >= 1 && IsIdStart(s[0])
    && (exists i :: 0 < i < |s| && s[i] == '.')
    && (forall i :: 0 <= i < |s| ==> IsIdChar(s[i]) || s[i] == '.')
    && s[|s| - 1] != '.'
    && (forall i :: 0 <= i < |s| - 1 && s[i] == '.' ==> s[i + 1] != '.')
  }

  /** `([^"\\]|\\.)*`: any character but a quote or a backslash, or a
      backslash followed by any character but a newline. */
  predicate EscapedBody(t: string)
    decreases |t|
  {
    || t == []
    || (t[0] != '"' && t[0] != '\\' && EscapedBody(t[1..]))
    || (|t| >= 2 && t[0] == '\\' && t[1] != '\n' && EscapedBody(t[2..]))
  }

  /** `"([^"\\]|\\.)*"` */
  predicate IsCStringLit(s: string) {
    |s| >= 2 && s[0] == '"' && s[|s| - 1] == '"' && EscapedBody(s[1..|s| - 1])
  }

  /** `[eE][+-]?[0-9]+` */
  predicate IsExponent(t: string) {
    |t| >= 2 && (t[0] == 'e' || t[0] == 'E') && Digits(OptSign(t[1..]))
  }

  /** `[0-9]*\.[0-9]+|[0-9]+\.[0-9]*`: digits around one point, with at
      least one digit on some side. */
  predicate IsMantissa(m: string) {
    var d := PointIndex(m);
    d < |m| && |m| >= 2 && AllDigits(m[..d]) && AllDigits(m[d + 1..])
  }

  /** `[-+]?(mantissa)([eE][+-]?[0-9]+)?|-?[0-9]+[eE][+-]?[0-9]+`. A mantissa
      holds no `e`, so the first `e`/`E` is where the exponent starts. */
  predicate IsCFloat(s: string) {
    || (var t := OptSign(s);
        var k := ExponentStart(t);
        IsMantissa(t[..k]) && (k == |t| || IsExponent(t[k..])))
    || (var t := if |s| > 0 && s[0] == '-' then s[1..] else s;
        var k := ExponentStart(t);
        k < |t| && Digits(t[..k]) && IsExponent(t[k..]))
  }

  /** `0[xX][0-9a-fA-F]+|0[bB][01]+|0[0-7]*|[1-9][0-9]*|0` */
  predicate IsCIntBody(b: string) {
    || (|b| >= 3 && b[0] == '0' && (b[1] == 'x' || b[1] == 'X') && forall i :: 2 <= i < |b| ==> IsHexDigit(b[i]))
    || (|b| >= 3 && b[0] == '0' && (b[1] == 'b' || b[1] == 'B') && forall i :: 2 <= i < |b| ==> IsBinDigit(b[i]))
    || (|b| >= 1 && b[0] == '0' && forall i :: 1 <= i < |b| ==> IsOctDigit(b[i]))
    || (|b| >= 1 && '1' <= b[0] <= '9' && forall i :: 1 <= i < |b| ==> IsDigit(b[i]))
  }

  /** `[-+]?(...)`: a body cannot start with a sign, so an initial sign is
      always the optional one. */
  predicate IsCInt(s: string) {
    IsCIntBody(OptSign(s))
  }

  /** `'.'`: exactly one character (not a newline) between single quotes. */
  predicate IsCCharLit(s: string) {
    |s| == 3 && s[0] == '\'' && s[2] == '\'' && s[1] != '\n'
  }

  /** `[ \t\n\f]+` */
  predicate IsWhitespace(s: string) {
    |s| >= 1 && forall i :: 0 <= i < |s| ==> IsSpace(s[i])
  }

  /** `:[rcdfvslp]|:ul|:ls|:const|:var|:t|:pa` */
  predicate IsCommand(s: string) {
    s in {":r", ":c", ":d", ":f", ":v", ":s", ":l", ":p", ":ul", ":ls", ":const", ":var", ":t", ":pa"}
  }

  /** The text a slice must have to be matched as `tok`. */
  predicate InClass(tok: Token, s: string) {
    match tok
    case Id => IsId(s)
    case FileName => IsFileName(s)
    case CString => IsCStringLit(s)
    case CFloat => IsCFloat(s)
    case CInt => IsCInt(s)
    case CChar => IsCCharLit(s)
    case LParen => s == "("
    case RParen => s == ")"
    case Minus => s == "-"
    case Plus => s == "+"
    case Star => s == "*"
    case Slash => s == "/"
    case EqEq => s == "=="
    case BangEq => s == "!="
    case Le => s == "<="
    case Lt => s == "<"
    case Ge => s == ">="
    case Gt => s == ">"
    case Bang => s == "!"
    case WS => IsWhitespace(s)
    case Command => IsCommand(s)
  }

  // ---------------------------------------------------------------------
  // Lexeme normalisation (src/lex.rs:62-84)

  predicate AllQuotes(s: string) { forall i :: 0 <= i < |s| ==> s[i] == '"' }

  /** `trim_start_matches('"')`: drops every leading quote. */
  function TrimStartQuotes(s: string): (r: string)
    ensures |r| <= |s| && r == s[|s| - |r|..]
    ensures AllQuotes(s[..|s| - |r|])
    ensures r != [] ==> r[0] != '"'
  {
    if s != [] && s[0] == '"' then
      var t := s[1..];
      var r := TrimStartQuotes(t);
      assert s[..|s| - |r|] == [s[0]] + t[..|t| - |r|];
      r
    else s
  }

  /** `trim_end_matches('"')`: drops every trailing quote. */
  function TrimEndQuotes(s: string): (r: string)
    ensures |r| <= |s| && r == s[..|r|]
    ensures AllQuotes(s[|r|..])
    ensures r != [] ==> r[|r| - 1] != '"'
  {
    if s != [] && s[|s| - 1] == '"' then
      var t := s[..|s| - 1];
      var r := TrimEndQuotes(t);
      assert s[|r|..] == t[|r|..] + [s[|s| - 1]];
      r
    else s
  }

  /** `trim_matches('"')`: drops every leading and every trailing quote. */
  function TrimQuotes(s: string): string {
    TrimEndQuotes(TrimStartQuotes(s))
  }

  /** One raw match from the matching engine: `None` stands for `Err(_)`
      (text no token class accepts) and `slice` is the matched text. */
  datatype RawMatch = RawMatch(tok: Option<Token>, slice: string)

  /** What the matching engine guarantees: each recognised slice is in the
      class of its token. */
  predicate WellFormed(raw: seq<RawMatch>) {
    forall i :: 0 <= i < |raw| && raw[i].tok.Some? ==> InClass(raw[i].tok.value, raw[i].slice)
  }

  /** What the loop needs: `chars().nth(1).unwrap()` finds a second
      character in every char-literal slice. */
  predicate CharSlicesOk(raw: seq<RawMatch>) {
    forall i :: 0 <= i < |raw| ==> CharSliceOk(raw[i])
  }

  predicate CharSliceOk(m: RawMatch) {
    m.tok == Some(CChar) ==> |m.slice| >= 2
  }

  /** The lexeme stored for a recognised slice. */
  function Lexeme(tok: Token, slice: string): string
    requires tok == CChar ==> |slice| >= 2
  {
    match tok
    case CString => TrimQuotes(slice)
    case CChar => [slice[1]]
    case _ => slice
  }

  /** What one raw match contributes to the output. */
  function Emit(m: RawMatch): seq<(Token, string)>
    requires CharSliceOk(m)
  {
    match m.tok
    case None => []
    case Some(t) => if t == WS then [] else [(t, Lexeme(t, m.slice))]
  }

  /** The output of `lex` for a sequence of raw matches. */
  function LexSpec(raw: seq<RawMatch>): seq<(Token, string)>
    requires CharSlicesOk(raw)
  {
    if raw == [] then [] else LexSpec(raw[..|raw| - 1]) + Emit(raw[|raw| - 1])
  }

  /** `lex`: the `while let` loop over the matches. */
  method Lex(raw: seq<RawMatch>) returns (out: seq<(Token, string)>)
    requires CharSlicesOk(raw)
    ensures out == LexSpec(raw)
  {
    out := [];
    var i := 0;
    while i < |raw|
      invariant 0 <= i <= |raw|
      invariant out == LexSpec(raw[..i])
    {
      var m := raw[i];
      assert raw[..i + 1][..i] == raw[..i];
      match m.tok {
        case None =>
          // "Unrecognized token!" is printed; nothing is kept
        case Some(t) =>
          if t == WS {
          } else if t == CString {
            out := out + [(CString, TrimQuotes(m.slice))];
          } else if t == CChar {
            out := out + [(CChar, [m.slice[1]])];
          } else {
            out := out + [(t, m.slice)];
          }
      }
      i := i + 1;
    }
    assert raw[..i] == raw;
  }

  // ---------------------------------------------------------------------
  // Properties

  /** Matches fit for the loop stay so when runs of them are joined, and
      a prefix of a run is fit for it too. */
  lemma SlicesOkAppend(a: seq<RawMatch>, b: seq<RawMatch>)
    requires CharSlicesOk(a) && CharSlicesOk(b)
    ensures CharSlicesOk(a + b)
    ensures b != [] ==> CharSlicesOk(b[..|b| - 1])
  {
    forall i | 0 <= i < |a + b| ensures CharSliceOk((a + b)[i]) {
      if i < |a| { assert (a + b)[i] == a[i]; } else { assert (a + b)[i] == b[i - |a|]; }
    }
    if b != [] {
      var init := b[..|b| - 1];
      forall i | 0 <= i < |init| ensures CharSliceOk(init[i]) { assert init[i] == b[i]; }
    }
  }

  /** The output for consecutive runs of matches is the concatenation of
      their outputs: order follows the input. */
  lemma {:induction false} LexAppend(a: seq<RawMatch>, b: seq<RawMatch>)
    requires CharSlicesOk(a) && CharSlicesOk(b)
    ensures CharSlicesOk(a + b)
    ensures LexSpec(a + b) == LexSpec(a) + LexSpec(b)
    decreases |b|
  {
    SlicesOkAppend(a, b);
    if b == [] {
      assert a + b == a;
    } else {
      var b', last := b[..|b| - 1], b[|b| - 1];
      SlicesOkAppend(a, b');
      LexAppend(a, b');
      var ab := a + b;
      assert LexSpec(ab) == LexSpec(a + b') + Emit(last) by {
        assert ab[..|ab| - 1] == a + b';
        assert ab[|ab| - 1] == last;
      }
      assert LexSpec(b) == LexSpec(b') + Emit(last);
      assert (LexSpec(a) + LexSpec(b')) + Emit(last) == LexSpec(a) + (LexSpec(b') + Emit(last));
    }
  }

  /** An unrecognised match contributes nothing, and scanning goes on with
      the rest of the input. */
  lemma LexSkipsUnrecognised(a: seq<RawMatch>, s: string, b: seq<RawMatch>)
    requires CharSlicesOk(a) && CharSlicesOk(b)
    ensures CharSlicesOk(a + [RawMatch(None, s)] + b)
    ensures LexSpec(a + [RawMatch(None, s)] + b) == LexSpec(a) + LexSpec(b)
  {
    var e := [RawMatch(None, s)];
    SingleSkipped(e[0]);
    LexAppend(a, e);
    assert LexSpec(a + e) == LexSpec(a);
    LexAppend(a + e, b);
  }

  lemma SingleSkipped(m: RawMatch)
    requires m.tok.None? || m.tok == Some(WS)
    ensures CharSlicesOk([m]) && LexSpec([m]) == []
  {
    assert [m][..0] == [];
  }

  /** Whitespace is skipped the same way. */
  lemma LexSkipsWhitespace(a: seq<RawMatch>, s: string, b: seq<RawMatch>)
    requires CharSlicesOk(a) && CharSlicesOk(b)
    ensures CharSlicesOk(a + [RawMatch(Some(WS), s)] + b)
    ensures LexSpec(a + [RawMatch(Some(WS), s)] + b) == LexSpec(a) + LexSpec(b)
  {
    var e := [RawMatch(Some(WS), s)];
    SingleSkipped(e[0]);
    LexAppend(a, e);
    assert LexSpec(a + e) == LexSpec(a);
    LexAppend(a + e, b);
  }

  /** What every output entry looks like when the matches are well formed:
      never whitespace; a char literal's lexeme is its one character; a
      string literal's lexeme neither starts nor ends with a quote; any
      other lexeme is the matched slice, still in its class. */
  predicate EntryOk(e: (Token, string)) {
    && e.0 != WS
    && (e.0 == CChar ==> |e.1| == 1)
    && (e.0 == CString ==> e.1 == [] || (e.1[0] != '"' && e.1[|e.1| - 1] != '"'))
    && (e.0 != CString && e.0 != CChar ==> InClass(e.0, e.1))
  }

  lemma {:induction false} LexEntries(raw: seq<RawMatch>)
    requires WellFormed(raw)
    ensures CharSlicesOk(raw)
    ensures forall k :: 0 <= k < |LexSpec(raw)| ==> EntryOk(LexSpec(raw)[k])
    decreases |raw|
  {
    assert CharSlicesOk(raw) by {
      forall i | 0 <= i < |raw| ensures CharSliceOk(raw[i]) {
        if raw[i].tok == Some(CChar) { assert InClass(CChar, raw[i].slice); }
      }
    }
    if raw != [] {
      var init, m := raw[..|raw| - 1], raw[|raw| - 1];
      assert WellFormed(init) by {
        forall i | 0 <= i < |init| && init[i].tok.Some?
          ensures InClass(init[i].tok.value, init[i].slice)
        {
          assert init[i] == raw[i];
        }
      }
      LexEntries(init);
      EmitOk(m);
      var out := LexSpec(raw);
      assert out == LexSpec(init) + Emit(m);
      forall k | 0 <= k < |out| ensures EntryOk(out[k]) {
        if k < |LexSpec(init)| {
          assert out[k] == LexSpec(init)[k];
        } else {
          assert out[k] == Emit(m)[k - |LexSpec(init)|];
        }
      }
    }
  }

  lemma EmitOk(m: RawMatch)
    requires m.tok.Some? ==> InClass(m.tok.value, m.slice)
    ensures CharSliceOk(m)
    ensures forall e | e in Emit(m) :: EntryOk(e)
  {
    if m.tok.Some? && m.tok.value != WS {
      var t := m.tok.value;
      assert CharSliceOk(m) by {
        if t == CChar { assert IsCCharLit(m.slice); }
      }
      assert Emit(m) == [(t, Lexeme(t, m.slice))];
      if t == CString {
        var trimmed := TrimStartQuotes(m.slice);
        assert Lexeme(t, m.slice) == TrimEndQuotes(trimmed);
      } else if t != CChar {
        assert Lexeme(t, m.slice) == m.slice;
      }
    }
  }

  /** A string literal's lexeme is the text between its quotes unless the
      text ends with an escaped quote. */
  lemma CStringLexemeIsBody(s: string)
    requires IsCStringLit(s)
    requires |s| == 2 || s[|s| - 2] != '"'
    ensures Lexeme(CString, s) == s[1..|s| - 1]
  {
    var body := s[1..|s| - 1];
    if |s| == 2 {
      assert TrimStartQuotes(s) == [];
    } else {
      assert body[0] != '"';
      assert s[1..] == body + ['"'];
      assert TrimStartQuotes(s) == TrimStartQuotes(s[1..]);
      assert TrimStartQuotes(s[1..]) == s[1..];
      assert TrimEndQuotes(s[1..]) == TrimEndQuotes(body);
      assert body[|body| - 1] != '"';
    }
  }

  /** ... and when it does, `trim_matches` eats that quote too: the literal
      `"a\""` is stored as the two characters `a\`. */
  lemma CStringLosesEscapedFinalQuote()
    ensures IsCStringLit("\"a\\\"\"")
    ensures Lexeme(CString, "\"a\\\"\"") == "a\\"
  {
    var s := "\"a\\\"\"";
    EscapedQuoteIsCStringLit();
    assert TrimStartQuotes(s) == s[1..];
    TrimEscapedQuote();
  }

  /** `"a\""` is a string literal: its body is `a` and an escaped quote. */
  lemma EscapedQuoteIsCStringLit()
    ensures IsCStringLit("\"a\\\"\"")
  {
    var s := "\"a\\\"\"";
    assert s[1..|s| - 1] == "a\\\"";
    assert EscapedBody("a\\\"") by {
      assert "a\\\""[1..] == "\\\"";
      assert "\\\""[2..] == [];
    }
  }

  /** `trim_end_matches('"')` on `a\""` leaves `a\`. */
  lemma TrimEscapedQuote()
    ensures TrimEndQuotes("a\\\"\"") == "a\\"
  {
    assert "a\\\"\""[..3] == "a\\\"";
    assert "a\\\""[..2] == "a\\";
  }

  /** A char literal is stored as the one character between its quotes. */
  lemma CCharLexeme(s: string)
    requires InClass(CChar, s)
    ensures Lexeme(CChar, s) == [s[1]] && |Lexeme(CChar, s)| == 1
  {
  }

  /** An identifier has no dot, a file name has one: no text is both. */
  lemma IdIsNotFileName(s: string)
    ensures !(IsId(s) && IsFileName(s))
  {
  }

  /** A float literal has a decimal point or an exponent. */
  lemma FloatHasPointOrExponent(s: string)
    requires IsCFloat(s)
    ensures '.' in s || 'e' in s || 'E' in s
  {
    var t := OptSign(s);
    var k := ExponentStart(t);
    var off := |s| - |t|;
    if IsMantissa(t[..k]) {
      var d := PointIndex(t[..k]);
      assert s[off + d] == t[d] == '.';
    } else {
      var t2 := if |s| > 0 && s[0] == '-' then s[1..] else s;
      var k2 := ExponentStart(t2);
      var off2 := |s| - |t2|;
      assert s[off2 + k2] == t2[k2];
    }
  }

  /** The integer class accepts each radix prefix and an optional sign, and
      rejects a leading zero followed by a non-octal digit. */
  lemma CIntClassExamples()
    ensures IsCInt("0x2A") && IsCInt("017") && IsCInt("-42")
    ensures !IsCInt("08")
  {
    assert IsCIntBody("0x2A") by { assert IsHexDigit('2') && IsHexDigit('A'); }
    assert IsCIntBody("017") by { assert IsOctDigit('1') && IsOctDigit('7'); }
    assert OptSign("-42") == "42";
    assert !IsCIntBody("08") by { assert "08"[1] == '8'; }
  }
}
