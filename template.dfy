/** The adapter's string template engine `format(fmt, ...args)`.

    A format string is a non-empty sequence of tokens: single characters that
    are not braces, the escapes `{{` and `}}`, and placeholders `{digits}`.
    `format` first checks the whole string against that grammar and throws
    'invalid format string.' when it does not match.  Otherwise one global
    replace walks the string: every maximal run of literal tokens has its
    escapes collapsed to a single brace, and every placeholder is replaced by
    the argument it names, or throws 'argument index is out of range in format'
    when the index is not below the number of arguments.

    The model keeps both levels: `Tokenize` and `ReplaceAll` follow the two
    regular expressions character by character, and `Render` gives the meaning
    of a token sequence; `ReplaceAllSpelled` proves that they agree. */
module Template {

  import opened Options

  datatype FormatError = InvalidFormat | IndexOutOfRange {
    /** The message of the Error that `format` throws. */
    function Message(): string {
      match this
      case InvalidFormat => "invalid format string."
      case IndexOutOfRange => "argument index is out of range in format"
    }
  }

  datatype Result<T> = Ok(value: T) | Err(error: FormatError)

  /** How a placeholder's digits select an argument.  `PropertyKey` is what
      `args[index]` does in JavaScript: the digits are a property name, and only
      a canonical decimal ("0", or no leading zero) names an element; any other
      name reads `undefined`, which the replace turns into the text "undefined".
      `NumericIndex` selects the element at the digits' numeric value. */
  datatype Lookup = PropertyKey | NumericIndex

  predicate IsBrace(c: char) { c == '{' || c == '}' }

  predicate IsDigit(c: char) { '0' <= c <= '9' }

  predicate AllDigits(d: string) { forall i :: 0 <= i < |d| ==> IsDigit(d[i]) }

  predicate BraceFree(s: string) { forall i :: 0 <= i < |s| ==> !IsBrace(s[i]) }

  /** Digits without a superfluous leading zero. */
  predicate Canonical(d: string) { |d| == 1 || (|d| > 1 && d[0] != '0') }

  /** The numeric value of a digit string, as JavaScript's `index >= args.length`
      converts it. */
  function DecimalValue(d: string): nat
  {
    if d == [] then 0
    else
      var c := d[|d| - 1];
      DecimalValue(d[..|d| - 1]) * 10 + (if IsDigit(c) then c as int - '0' as int else 0)
  }

  /** The canonical decimal spelling of `i`. */
  function Decimal(i: nat): string
  {
    if i < 10 then [('0' as int + i) as char]
    else Decimal(i / 10) + [('0' as int + i % 10) as char]
  }

  // ---------------------------------------------------------------------------
  // Tokens: the grammar of line 24

  datatype Token = Char(c: char) | OpenEscape | CloseEscape | Hole(digits: string)

  predicate WellFormed(t: Token)
  {
    match t
    case Char(c) => !IsBrace(c)
    case Hole(d) => |d| > 0 && AllDigits(d)
    case _ => true
  }

  predicate AllWellFormed(ts: seq<Token>) { forall i :: 0 <= i < |ts| ==> WellFormed(ts[i]) }

  predicate IsLiteral(t: Token) { !t.Hole? }

  /** The text a token stands for in a format string. */
  function Spell(t: Token): string
  {
    match t
    case Char(c) => [c]
    case OpenEscape => "{{"
    case CloseEscape => "}}"
    case Hole(d) => "{" + d + "}"
  }

  function SpellAll(ts: seq<Token>): string
  {
    if ts == [] then [] else Spell(ts[0]) + SpellAll(ts[1..])
  }

  /** Length of the longest prefix of `s` made of digits. */
  function DigitPrefix(s: string): (n: nat)
    ensures n <= |s|
    ensures AllDigits(s[..n])
    ensures n < |s| ==> !IsDigit(s[n])
  {
    if s == [] || !IsDigit(s[0]) then 0
    else
      var k := DigitPrefix(s[1..]);
      assert s[..k + 1] == [s[0]] + s[1..][..k];
      k + 1
  }

  /** The number of digits of the placeholder (an opening brace, one or more
      digits, a closing brace) at the start of `s`, or 0 when `s` does not
      start with one. */
  function HoleDigits(s: string): (n: nat)
    ensures n > 0 ==> n + 2 <= |s| && s[0] == '{' && s[n + 1] == '}' && AllDigits(s[1..n + 1])
  {
    if |s| >= 2 && s[0] == '{' then
      var k := DigitPrefix(s[1..]);
      assert s[1..][..k] == s[1..k + 1];
      if k > 0 && k + 1 < |s| && s[k + 1] == '}' then k else 0
    else 0
  }

  /** The token that starts `s`, or None when no token starts there. */
  function HeadToken(s: string): (r: Option<Token>)
    ensures r.Some? ==> WellFormed(r.value) && |Spell(r.value)| <= |s| && s[..|Spell(r.value)|] == Spell(r.value)
  {
    if s == [] then None
    else if !IsBrace(s[0]) then Some(Char(s[0]))
    else if |s| >= 2 && s[1] == s[0] then Some(if s[0] == '{' then OpenEscape else CloseEscape)
    else
      var n := HoleDigits(s);
      if n > 0 then
        assert s[..n + 2] == "{" + s[1..n + 1] + "}";
        Some(Hole(s[1..n + 1]))
      else None
  }

  /** Splits `s` into tokens, or None when some position starts no token.  At
      each position at most one token can start, so the split is the only one
      (`TokenizeSpelled`). */
  function Tokenize(s: string): (r: Option<seq<Token>>)
    ensures r.Some? ==> SpellAll(r.value) == s && AllWellFormed(r.value)
    decreases |s|
  {
    if s == [] then Some([])
    else
      match HeadToken(s)
      case None => None
      case Some(t) =>
        var n := |Spell(t)|;
        match Tokenize(s[n..])
        case None => None
        case Some(ts) =>
          SpellAllCons(t, ts);
          assert s == s[..n] + s[n..];
          Some([t] + ts)
  }

  lemma SpellAllCons(t: Token, ts: seq<Token>)
    ensures SpellAll([t] + ts) == Spell(t) + SpellAll(ts)
    ensures WellFormed(t) && AllWellFormed(ts) ==> AllWellFormed([t] + ts)
  {
    assert ([t] + ts)[1..] == ts;
    if WellFormed(t) && AllWellFormed(ts) {
      forall i | 0 <= i < |[t] + ts| ensures WellFormed(([t] + ts)[i]) {
        if i > 0 { assert ([t] + ts)[i] == ts[i - 1]; }
      }
    }
  }

  /** The check on line 24: the whole of `fmt` is one or more literal runs and
      placeholders, that is, a non-empty concatenation of well-formed tokens
      (`ValidFormatIffTokens`). */
  predicate ValidFormat(fmt: string) { |fmt| > 0 && Tokenize(fmt).Some? }

  // ---------------------------------------------------------------------------
  // The global replace of lines 27-35

  function Append(prefix: string, r: Result<string>): Result<string>
  {
    match r
    case Ok(s) => Ok(prefix + s)
    case Err(e) => Err(e)
  }

  /** Length of the longest literal run at the start of `s`: non-brace
      characters and doubled braces, taken greedily (0 when there is none). */
  function LiteralRun(s: string): (n: nat)
    ensures n <= |s|
  {
    if s == [] then 0
    else if !IsBrace(s[0]) then 1 + LiteralRun(s[1..])
    else if |s| >= 2 && s[1] == s[0] then 2 + LiteralRun(s[2..])
    else 0
  }

  /** Line 29: a left-to-right scan of a literal run that replaces each
      doubled brace by a single one and copies every other character. */
  function CollapseEscapes(s: string): string
  {
    if s == [] then []
    else if |s| >= 2 && IsBrace(s[0]) && s[1] == s[0] then [s[0]] + CollapseEscapes(s[2..])
    else [s[0]] + CollapseEscapes(s[1..])
  }

  /** Line 34: the argument a placeholder names; `index >= args.length` was
      checked just before, on the numeric value. */
  function Argument(args: seq<string>, d: string, lookup: Lookup): string
    requires DecimalValue(d) < |args|
  {
    match lookup
    case NumericIndex => args[DecimalValue(d)]
    case PropertyKey => if Canonical(d) then args[DecimalValue(d)] else "undefined"
  }

  /** Line 27: the global replace.  At each position a literal run is tried
      before a placeholder; a character that starts neither is copied. */
  function ReplaceAll(s: string, args: seq<string>, lookup: Lookup): Result<string>
    decreases |s|
  {
    if s == [] then Ok([])
    else
      var n := LiteralRun(s);
      if n > 0 then Append(CollapseEscapes(s[..n]), ReplaceAll(s[n..], args, lookup))
      else
        var k := HoleDigits(s);
        if k > 0 then
          var d := s[1..k + 1];
          if DecimalValue(d) >= |args| then Err(IndexOutOfRange)
          else Append(Argument(args, d, lookup), ReplaceAll(s[k + 2..], args, lookup))
        else Append([s[0]], ReplaceAll(s[1..], args, lookup))
  }

  /** `format(fmt, ...args)` with a choice of how placeholders select arguments. */
  function FormatWith(fmt: string, args: seq<string>, lookup: Lookup): Result<string>
  {
    if !ValidFormat(fmt) then Err(InvalidFormat) else ReplaceAll(fmt, args, lookup)
  }

  /** `format(fmt, ...args)` as main.js:23-37 writes it. */
  function Format(fmt: string, args: seq<string>): Result<string>
  {
    FormatWith(fmt, args, PropertyKey)
  }

  /** `format` with placeholders resolved by numeric value, so that `{01}`
      selects the same argument as `{1}`. */
  function FormatByValue(fmt: string, args: seq<string>): Result<string>
  {
    FormatWith(fmt, args, NumericIndex)
  }

  // ---------------------------------------------------------------------------
  // Meaning of a token sequence

  /** Literal tokens stand for one character each; a placeholder for its
      argument, or the whole result is the out-of-range error. */
  function Render(ts: seq<Token>, args: seq<string>, lookup: Lookup): Result<string>
  {
    if ts == [] then Ok([])
    else
      match ts[0]
      case Hole(d) =>
        if DecimalValue(d) >= |args| then Err(IndexOutOfRange)
        else Append(Argument(args, d, lookup), Render(ts[1..], args, lookup))
      case _ => Append([LiteralChar(ts[0])], Render(ts[1..], args, lookup))
  }

  /** The character a literal token stands for in the output. */
  function LiteralChar(t: Token): char
    requires IsLiteral(t)
  {
    match t
    case Char(c) => c
    case OpenEscape => '{'
    case CloseEscape => '}'
  }

  /** A placeholder whose value is not below the number of arguments. */
  predicate OutOfRangeAt(ts: seq<Token>, args: seq<string>, i: int)
  {
    0 <= i < |ts| && ts[i].Hole? && DecimalValue(ts[i].digits) >= |args|
  }

  // ---------------------------------------------------------------------------
  // Lemmas

  lemma SpellAllAppend(a: seq<Token>, b: seq<Token>)
    ensures SpellAll(a + b) == SpellAll(a) + SpellAll(b)
  {
    if a == [] {
      assert a + b == b;
    } else {
      assert (a + b)[0] == a[0] && (a + b)[1..] == a[1..] + b;
      SpellAllAppend(a[1..], b);
      assert Spell(a[0]) + (SpellAll(a[1..]) + SpellAll(b)) == Spell(a[0]) + SpellAll(a[1..]) + SpellAll(b);
    }
  }

  lemma {:induction false} DigitPrefixOfHole(d: string, rest: string)
    requires AllDigits(d)
    ensures DigitPrefix(d + "}" + rest) == |d|
  {
    if d != [] {
      var s := d + "}" + rest;
      assert s[0] == d[0] && IsDigit(d[0]);
      assert s[1..] == d[1..] + "}" + rest;
      assert AllDigits(d[1..]) by {
        forall i | 0 <= i < |d[1..]| ensures IsDigit(d[1..][i]) { assert d[1..][i] == d[i + 1]; }
      }
      DigitPrefixOfHole(d[1..], rest);
    }
  }

  lemma HoleDigitsOfHole(d: string, rest: string)
    requires |d| > 0 && AllDigits(d)
    ensures HoleDigits(Spell(Hole(d)) + rest) == |d|
    ensures (Spell(Hole(d)) + rest)[1..|d| + 1] == d
    ensures (Spell(Hole(d)) + rest)[|d| + 2..] == rest
  {
    var s := Spell(Hole(d)) + rest;
    assert s[1..] == d + "}" + rest;
    DigitPrefixOfHole(d, rest);
  }

  lemma HeadTokenOf(t: Token, rest: string)
    requires WellFormed(t)
    ensures HeadToken(Spell(t) + rest) == Some(t)
    ensures (Spell(t) + rest)[|Spell(t)|..] == rest
  {
    if t.Hole? {
      var s := Spell(t) + rest;
      assert s[1] == t.digits[0] && IsDigit(t.digits[0]);
      HoleDigitsOfHole(t.digits, rest);
    }
  }

  /** Uniqueness of the split: a well-formed token sequence is the one
      `Tokenize` returns for its spelling. */
  lemma {:induction false} TokenizeSpelled(ts: seq<Token>)
    requires AllWellFormed(ts)
    ensures Tokenize(SpellAll(ts)) == Some(ts)
  {
    if ts != [] {
      var t, rest := ts[0], ts[1..];
      assert WellFormed(t);
      assert AllWellFormed(rest) by {
        forall i | 0 <= i < |rest| ensures WellFormed(rest[i]) { assert rest[i] == ts[i + 1]; }
      }
      TokenizeSpelled(rest);
      HeadTokenOf(t, SpellAll(rest));
      assert [t] + rest == ts;
    }
  }

  /** Line 24 accepts exactly the non-empty concatenations of well-formed
      tokens. */
  lemma ValidFormatIffTokens(fmt: string)
    ensures ValidFormat(fmt) <==> exists ts :: |ts| > 0 && AllWellFormed(ts) && SpellAll(ts) == fmt
  {
    if ValidFormat(fmt) {
      var ts := Tokenize(fmt).value;
      assert |ts| > 0 && AllWellFormed(ts) && SpellAll(ts) == fmt;
    }
    if ts :| |ts| > 0 && AllWellFormed(ts) && SpellAll(ts) == fmt {
      TokenizeSpelled(ts);
      assert |Spell(ts[0])| > 0;
    }
  }

  /** Concrete strings outside the grammar: the empty string, a lone brace,
      an escape followed by a lone brace, and an unclosed placeholder. */
  lemma MalformedExamples(args: seq<string>, lookup: Lookup)
    ensures FormatWith("", args, lookup) == Err(InvalidFormat)
    ensures FormatWith("{", args, lookup) == Err(InvalidFormat)
    ensures FormatWith("}", args, lookup) == Err(InvalidFormat)
    ensures FormatWith("{{0}", args, lookup) == Err(InvalidFormat)
    ensures FormatWith("a{12", args, lookup) == Err(InvalidFormat)
    ensures FormatWith("{}", args, lookup) == Err(InvalidFormat)
  {
    assert HeadToken("{") == None && Tokenize("{") == None;
    assert HeadToken("}") == None && Tokenize("}") == None;
    assert Tokenize("{{0}") == None by {
      assert "{{0}"[2..] == "0}" && "0}"[1..] == "}";
    }
    assert Tokenize("a{12") == None by {
      assert "a{12"[1..] == "{12";
      assert DigitPrefix("12") == 2 by { assert "12"[1..] == "2" && "2"[1..] == ""; }
      assert HoleDigits("{12") == 0;
    }
    assert Tokenize("{}") == None by {
      assert DigitPrefix("}") == 0;
    }
  }

  /** The grammar is checked before anything is substituted: a placeholder
      one past the last argument raises the range error on its own, but the
      invalid-format error when a stray closing brace follows it. */
  lemma ValidationComesFirst(args: seq<string>, lookup: Lookup)
    ensures FormatWith("{" + Decimal(|args|) + "}}", args, lookup) == Err(InvalidFormat)
    ensures FormatWith("{" + Decimal(|args|) + "}", args, lookup) == Err(IndexOutOfRange)
  {
    DecimalCanonical(|args|);
    StrayCloseAfterHole(Decimal(|args|));
    FormatPlaceholder(|args|, args, lookup);
  }

  lemma StrayCloseAfterHole(d: string)
    requires |d| > 0 && AllDigits(d)
    ensures !ValidFormat("{" + d + "}}")
  {
    var s := "{" + d + "}}";
    HeadTokenOf(Hole(d), "}");
    assert s == Spell(Hole(d)) + "}";
    assert s[|Spell(Hole(d))|..] == "}";
    assert Tokenize("}") == None;
  }

  lemma LiteralRunStep(t: Token, rest: string)
    requires WellFormed(t) && IsLiteral(t)
    ensures LiteralRun(Spell(t) + rest) == |Spell(t)| + LiteralRun(rest)
  {
    assert (Spell(t) + rest)[|Spell(t)|..] == rest;
  }

  lemma CollapseStep(t: Token, x: string)
    requires WellFormed(t) && IsLiteral(t)
    ensures CollapseEscapes(Spell(t) + x) == [LiteralChar(t)] + CollapseEscapes(x)
  {
    assert (Spell(t) + x)[|Spell(t)|..] == x;
  }

  lemma AppendAssoc(a: string, b: string, r: Result<string>)
    ensures Append(a + b, r) == Append(a, Append(b, r))
  {
    match r
    case Ok(v) => assert a + b + v == a + (b + v);
    case Err(_) =>
  }

  lemma {:induction false} LiteralStep(t: Token, rest: string, args: seq<string>, lookup: Lookup)
    requires WellFormed(t) && IsLiteral(t)
    ensures ReplaceAll(Spell(t) + rest, args, lookup) == Append([LiteralChar(t)], ReplaceAll(rest, args, lookup))
  {
    var s := Spell(t) + rest;
    var m := LiteralRun(rest);
    var n := LiteralRun(s);
    var run := CollapseEscapes(rest[..m]);
    var tail := ReplaceAll(rest[m..], args, lookup);
    assert s[..n] == Spell(t) + rest[..m] && s[n..] == rest[m..] by {
      LiteralRunStep(t, rest);
    }
    assert CollapseEscapes(s[..n]) == [LiteralChar(t)] + run by {
      CollapseStep(t, rest[..m]);
    }
    RunSplit(s, args, lookup);
    RunSplit(rest, args, lookup);
    AppendAssoc([LiteralChar(t)], run, tail);
  }

  /** Whatever `s` is, the replace is the collapsed leading literal run
      followed by the replace of what comes after it. */
  lemma RunSplit(s: string, args: seq<string>, lookup: Lookup)
    ensures ReplaceAll(s, args, lookup)
         == Append(CollapseEscapes(s[..LiteralRun(s)]), ReplaceAll(s[LiteralRun(s)..], args, lookup))
  {
    if LiteralRun(s) == 0 {
      assert s[0..] == s;
      match ReplaceAll(s, args, lookup)
      case Ok(v) => assert [] + v == v;
      case Err(_) =>
    }
  }

  lemma HoleStep(d: string, rest: string, args: seq<string>, lookup: Lookup)
    requires |d| > 0 && AllDigits(d)
    ensures ReplaceAll(Spell(Hole(d)) + rest, args, lookup)
         == if DecimalValue(d) >= |args| then Err(IndexOutOfRange)
            else Append(Argument(args, d, lookup), ReplaceAll(rest, args, lookup))
  {
    var s := Spell(Hole(d)) + rest;
    assert s[0] == '{' && s[1] == d[0] && IsDigit(d[0]);
    assert LiteralRun(s) == 0;
    HoleDigitsOfHole(d, rest);
  }

  /** The global replace of line 27 computes the meaning of the tokens it walks
      through: collapsing a literal run's escapes is the same as rendering its
      tokens one by one. */
  lemma {:induction false} ReplaceAllSpelled(ts: seq<Token>, args: seq<string>, lookup: Lookup)
    requires AllWellFormed(ts)
    ensures ReplaceAll(SpellAll(ts), args, lookup) == Render(ts, args, lookup)
  {
    if ts != [] {
      var t, rest := ts[0], ts[1..];
      assert WellFormed(t) by { assert t == ts[0]; }
      assert AllWellFormed(rest) by {
        forall i | 0 <= i < |rest| ensures WellFormed(rest[i]) { assert rest[i] == ts[i + 1]; }
      }
      ReplaceAllSpelled(rest, args, lookup);
      if t.Hole? {
        HoleStep(t.digits, SpellAll(rest), args, lookup);
      } else {
        LiteralStep(t, SpellAll(rest), args, lookup);
      }
    }
  }

  /** A valid format string is formatted to the meaning of its tokens. */
  lemma FormatRendersTokens(fmt: string, args: seq<string>, lookup: Lookup)
    requires ValidFormat(fmt)
    ensures FormatWith(fmt, args, lookup) == Render(Tokenize(fmt).value, args, lookup)
  {
    ReplaceAllSpelled(Tokenize(fmt).value, args, lookup);
  }

  lemma {:induction false} RenderAppend(a: seq<Token>, b: seq<Token>, args: seq<string>, lookup: Lookup)
    ensures Render(a + b, args, lookup)
         == match Render(a, args, lookup)
            case Err(e) => Err(e)
            case Ok(x) => Append(x, Render(b, args, lookup))
  {
    if a == [] {
      assert a + b == b;
      match Render(b, args, lookup)
      case Ok(v) => assert [] + v == v;
      case Err(_) =>
    } else {
      assert (a + b)[0] == a[0] && (a + b)[1..] == a[1..] + b;
      RenderAppend(a[1..], b, args, lookup);
      match Render(b, args, lookup)
      case Ok(v) =>
        forall p: string, x: string ensures p + x + v == p + (x + v) { }
      case Err(_) =>
    }
  }

  /** The out-of-range error is raised exactly when some placeholder's index is
      not below the number of arguments, and it is the only error rendering
      can produce. */
  lemma {:induction false} RenderErrorIff(ts: seq<Token>, args: seq<string>, lookup: Lookup)
    ensures Render(ts, args, lookup).Err? <==> exists i :: OutOfRangeAt(ts, args, i)
    ensures Render(ts, args, lookup).Err? ==> Render(ts, args, lookup).error == IndexOutOfRange
  {
    if ts != [] {
      var rest := ts[1..];
      RenderErrorIff(rest, args, lookup);
      if OutOfRangeAt(ts, args, 0) {
        assert Render(ts, args, lookup) == Err(IndexOutOfRange);
      } else {
        var x := if ts[0].Hole? then Argument(args, ts[0].digits, lookup) else [LiteralChar(ts[0])];
        assert Render(ts, args, lookup) == Append(x, Render(rest, args, lookup));
        if exists i :: OutOfRangeAt(rest, args, i) {
          var i :| OutOfRangeAt(rest, args, i);
          assert rest[i] == ts[i + 1];
          assert OutOfRangeAt(ts, args, i + 1);
        }
        if exists i :: OutOfRangeAt(ts, args, i) {
          var i :| OutOfRangeAt(ts, args, i);
          assert i > 0;
          assert rest[i - 1] == ts[i];
          assert OutOfRangeAt(rest, args, i - 1);
        }
      }
    }
  }

  /** Error cases of `format` on a valid string: out of range iff some
      placeholder names a missing argument. */
  lemma FormatErrorIff(fmt: string, args: seq<string>, lookup: Lookup)
    requires ValidFormat(fmt)
    ensures FormatWith(fmt, args, lookup).Err? <==> exists i :: OutOfRangeAt(Tokenize(fmt).value, args, i)
    ensures FormatWith(fmt, args, lookup).Err? ==> FormatWith(fmt, args, lookup).error == IndexOutOfRange
  {
    FormatRendersTokens(fmt, args, lookup);
    RenderErrorIff(Tokenize(fmt).value, args, lookup);
  }

  /** Formatting is compositional: two valid strings side by side form a valid
      string, formatted to the two results side by side. */
  lemma FormatAppend(a: string, b: string, args: seq<string>, lookup: Lookup)
    requires ValidFormat(a) && ValidFormat(b)
    ensures ValidFormat(a + b)
    ensures FormatWith(a + b, args, lookup)
         == match FormatWith(a, args, lookup)
            case Err(e) => Err(e)
            case Ok(x) => Append(x, FormatWith(b, args, lookup))
  {
    var ta, tb := Tokenize(a).value, Tokenize(b).value;
    SpellAllAppend(ta, tb);
    assert AllWellFormed(ta + tb) by {
      forall i | 0 <= i < |ta + tb| ensures WellFormed((ta + tb)[i]) {
        if i < |ta| { assert (ta + tb)[i] == ta[i]; } else { assert (ta + tb)[i] == tb[i - |ta|]; }
      }
    }
    TokenizeSpelled(ta + tb);
    FormatRendersTokens(a, args, lookup);
    FormatRendersTokens(b, args, lookup);
    FormatRendersTokens(a + b, args, lookup);
    RenderAppend(ta, tb, args, lookup);
  }

  lemma {:induction false} BraceFreeRun(s: string)
    requires BraceFree(s)
    ensures LiteralRun(s) == |s| && CollapseEscapes(s) == s
  {
    if s != [] {
      assert BraceFree(s[1..]) by {
        forall i | 0 <= i < |s[1..]| ensures !IsBrace(s[1..][i]) { assert s[1..][i] == s[i + 1]; }
      }
      assert !IsBrace(s[0]);
      BraceFreeRun(s[1..]);
      assert s == [s[0]] + s[1..];
    }
  }

  /** A brace-free string is a valid format string returned unchanged, whatever
      the arguments. */
  lemma BraceFreeUnchanged(fmt: string, args: seq<string>, lookup: Lookup)
    requires |fmt| > 0 && BraceFree(fmt)
    ensures FormatWith(fmt, args, lookup) == Ok(fmt)
  {
    BraceFreeRun(fmt);
    assert fmt[..|fmt|] == fmt && fmt[|fmt|..] == [];
    var ts := seq(|fmt|, i requires 0 <= i < |fmt| => Char(fmt[i]));
    assert SpellAll(ts) == fmt by { SpellChars(fmt); }
    assert AllWellFormed(ts);
    TokenizeSpelled(ts);
    assert ReplaceAll(fmt, args, lookup) == Append(fmt, ReplaceAll([], args, lookup));
    assert fmt + [] == fmt;
  }

  lemma {:induction false} SpellChars(s: string)
    ensures SpellAll(seq(|s|, i requires 0 <= i < |s| => Char(s[i]))) == s
  {
    if s != [] {
      var ts := seq(|s|, i requires 0 <= i < |s| => Char(s[i]));
      assert ts[1..] == seq(|s[1..]|, i requires 0 <= i < |s[1..]| => Char(s[1..][i]));
      SpellChars(s[1..]);
      assert s == [s[0]] + s[1..];
    }
  }

  /** Doubles every brace of `s`. */
  function Escape(s: string): string
  {
    if s == [] then [] else (if IsBrace(s[0]) then [s[0], s[0]] else [s[0]]) + Escape(s[1..])
  }

  function EscapeTokens(s: string): seq<Token>
  {
    if s == [] then []
    else [if s[0] == '{' then OpenEscape else if s[0] == '}' then CloseEscape else Char(s[0])] + EscapeTokens(s[1..])
  }

  lemma {:induction false} EscapeTokensMeaning(s: string, args: seq<string>, lookup: Lookup)
    ensures |EscapeTokens(s)| == |s|
    ensures AllWellFormed(EscapeTokens(s))
    ensures SpellAll(EscapeTokens(s)) == Escape(s)
    ensures Render(EscapeTokens(s), args, lookup) == Ok(s)
  {
    if s != [] {
      EscapeTokensMeaning(s[1..], args, lookup);
      var ts := EscapeTokens(s);
      assert ts[1..] == EscapeTokens(s[1..]);
      assert s == [s[0]] + s[1..];
      forall i | 0 <= i < |ts| ensures WellFormed(ts[i]) {
        if i > 0 { assert ts[i] == EscapeTokens(s[1..])[i - 1]; }
      }
    }
  }

  /** Round trip: doubling every brace of a non-empty string gives a valid
      format string that `format` with no arguments turns back into it. */
  lemma EscapeRoundTrip(s: string, lookup: Lookup)
    requires |s| > 0
    ensures ValidFormat(Escape(s))
    ensures FormatWith(Escape(s), [], lookup) == Ok(s)
  {
    EscapeTokensMeaning(s, [], lookup);
    TokenizeSpelled(EscapeTokens(s));
    assert |Escape(s)| > 0 by { assert |Spell(EscapeTokens(s)[0])| > 0; }
    FormatRendersTokens(Escape(s), [], lookup);
  }

  lemma {:induction false} DecimalCanonical(i: nat)
    ensures |Decimal(i)| > 0 && AllDigits(Decimal(i)) && Canonical(Decimal(i))
    ensures DecimalValue(Decimal(i)) == i
  {
    if i >= 10 {
      DecimalCanonical(i / 10);
      var d := Decimal(i);
      assert d[..|d| - 1] == Decimal(i / 10);
      assert d[0] == Decimal(i / 10)[0];
    }
  }

  /** A placeholder written in canonical decimal selects that argument, under
      either lookup, or raises the out-of-range error. */
  lemma FormatPlaceholder(i: nat, args: seq<string>, lookup: Lookup)
    ensures FormatWith("{" + Decimal(i) + "}", args, lookup)
         == if i < |args| then Ok(args[i]) else Err(IndexOutOfRange)
  {
    DecimalCanonical(i);
    FormatHole(Decimal(i), args, lookup);
  }

  lemma FormatHole(d: string, args: seq<string>, lookup: Lookup)
    requires |d| > 0 && AllDigits(d)
    ensures ValidFormat("{" + d + "}")
    ensures FormatWith("{" + d + "}", args, lookup)
         == if DecimalValue(d) >= |args| then Err(IndexOutOfRange) else Ok(Argument(args, d, lookup))
  {
    var ts := [Hole(d)];
    assert ts[1..] == [];
    assert SpellAll(ts) == "{" + d + "}" + [];
    assert "{" + d + "}" + [] == "{" + d + "}";
    TokenizeSpelled(ts);
    FormatRendersTokens("{" + d + "}", args, lookup);
    if DecimalValue(d) < |args| {
      assert Render(ts, args, lookup) == Append(Argument(args, d, lookup), Ok([]));
      assert Argument(args, d, lookup) + [] == Argument(args, d, lookup);
    }
  }

  /** As written, a placeholder with a leading zero passes the range check but
      reads `undefined`, so `format("{00}", "a")` is "undefined". */
  lemma LeadingZeroReadsUndefined()
    ensures Format("{00}", ["a"]) == Ok("undefined")
    ensures FormatByValue("{00}", ["a"]) == Ok("a")
  {
    var d := "00";
    assert d[..1] == "0" && d[..1][..0] == [];
    assert DecimalValue(d) == 0;
    assert AllDigits(d) && !Canonical(d);
    assert "{" + d + "}" == "{00}";
    FormatHole(d, ["a"], PropertyKey);
    FormatHole(d, ["a"], NumericIndex);
  }

  /** With numeric lookup every in-range placeholder selects the argument at
      its value, with or without leading zeros. */
  lemma FormatByValueSelects(d: string, args: seq<string>)
    requires |d| > 0 && AllDigits(d) && DecimalValue(d) < |args|
    ensures FormatByValue("{" + d + "}", args) == Ok(args[DecimalValue(d)])
  {
    FormatHole(d, args, NumericIndex);
  }
}
