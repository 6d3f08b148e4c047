/** The replacement template of Python's `re.sub(pattern, repl, string)` when
    `repl` is a string holding a backslash (one without a backslash is used
    as it stands). The template is parsed before any matching, so a bad
    escape raises even when the pattern matches nowhere. The pattern it is
    used with here, `\?r[drv]`, has no groups: `\g<0>` (any number of zeros)
    stands for the whole match, and every other group reference raises. */
module ReplacementTemplate {
  import opened Wrappers
  import opened Text

  /** A piece of a parsed template: literal text, or the text of the match. */
  datatype Piece = Lit(text: string) | WholeMatch

  /** The `re.error` (or `IndexError`) a template raises. `at` is the
      position Python's `re.error.pos` reports: the backslash of a bad letter
      escape or of an octal escape above 255, the digit after the backslash
      of a numbered group reference, the character after `\g` when `<` is
      missing, the start of the name in `\g<...>`, and the last position when
      the template ends in a lone backslash. */
  datatype TemplateError = TemplateError(at: nat)

  predicate IsOctal(c: char)
  {
    '0' <= c <= '7'
  }

  predicate IsAsciiLetter(c: char)
  {
    'a' <= c <= 'z' || 'A' <= c <= 'Z'
  }

  function OctalValue(c: char): nat
    requires IsOctal(c)
  {
    c as int - '0' as int
  }

  /** The one-character escapes `\a \b \f \n \r \t \v \\` and the characters
      they stand for. */
  function SimpleEscape(c: char): (r: Option<char>)
    ensures r.Some? ==> IsAsciiLetter(c) || c == '\\'
    ensures c == '\\' ==> r == Some('\\')
  {
    if c == 'a' then Some(7 as char)
    else if c == 'b' then Some(8 as char)
    else if c == 'f' then Some(12 as char)
    else if c == 'n' then Some(10 as char)
    else if c == 'r' then Some(13 as char)
    else if c == 't' then Some(9 as char)
    else if c == 'v' then Some(11 as char)
    else if c == '\\' then Some('\\')
    else None
  }

  /** Where the tokenizer stops reading a group name that starts at `p`: at
      the first `>` that is a token of its own, at the end of `t`, or at a
      backslash that ends `t`. A backslash and the character after it are one
      token, so `\>` does not close the name. */
  function NameEnd(t: string, p: nat): (q: nat)
    requires p <= |t|
    ensures p <= q <= |t|
    ensures q < |t| ==> t[q] == '>' || (q == |t| - 1 && t[q] == '\\')
    ensures '\\' !in t[p..q] ==> forall k :: p <= k < q ==> t[k] != '>'
    decreases |t| - p
  {
    if p == |t| || t[p] == '>' then p
    else if t[p] == '\\' then (if p + 1 == |t| then p else NameEnd(t, p + 2))
    else
      var q := NameEnd(t, p + 1);
      assert q > p ==> t[p..q] == [t[p]] + t[p + 1..q];
      q
  }

  /** What the parser makes of the escape at the start of `t` before the
      token after it is looked at: the piece, or the position of the error,
      and how far the tokenizer has read. */
  datatype Step = Step(outcome: Result<Piece, nat>, used: nat)

  /** `\g<name>` at the start of `t`: only a name of ASCII digits whose value
      is 0 is accepted (group 0, the whole match). */
  function GroupEscape(t: string): (r: Step)
    requires |t| >= 2 && t[0] == '\\' && t[1] == 'g'
    ensures 2 <= r.used <= |t|
    ensures r.outcome.Success? ==> r.outcome.value == WholeMatch && 5 <= r.used && t[r.used - 1] == '>'
    ensures r.outcome.Failure? ==> r.outcome.error == (if |t| >= 3 && t[2] == '<' then 3 else 2)
  {
    if |t| < 3 || t[2] != '<' then Step(Failure(2), 2)
    else
      var q := NameEnd(t, 3);
      if q == |t| || t[q] != '>' then Step(Failure(3), q)
      else if q > 3 && AllDigits(t[3..q]) && DecimalValue(t[3..q]) == 0 then Step(Success(WholeMatch), q + 1)
      else Step(Failure(3), q + 1)
  }

  /** The escape at the start of `t`, before the lookahead. */
  function EscapeStep(t: string): (r: Step)
    requires |t| >= 2 && t[0] == '\\'
    ensures 2 <= r.used <= |t|
    ensures r.outcome.Failure? ==> r.outcome.error <= 3 && r.outcome.error <= |t|
  {
    var c := t[1];
    if c == 'g' then GroupEscape(t)
    else if c == '0' then
      // `\0` and up to two more octal digits
      if |t| >= 3 && IsOctal(t[2]) then
        if |t| >= 4 && IsOctal(t[3]) then Step(Success(Lit([(8 * OctalValue(t[2]) + OctalValue(t[3])) as char])), 4)
        else Step(Success(Lit([OctalValue(t[2]) as char])), 3)
      else Step(Success(Lit([0 as char])), 2)
    else if IsDigit(c) then
      // three octal digits are a character; otherwise a group reference of
      // one or two digits
      if |t| >= 3 && IsDigit(t[2]) then
        if |t| >= 4 && IsOctal(c) && IsOctal(t[2]) && IsOctal(t[3]) then
          var v := 64 * OctalValue(c) + 8 * OctalValue(t[2]) + OctalValue(t[3]);
          if v > 255 then Step(Failure(0), 4) else Step(Success(Lit([v as char])), 4)
        else Step(Failure(1), 3)
      else Step(Failure(1), 2)
    else if SimpleEscape(c).Some? then Step(Success(Lit([SimpleEscape(c).value])), 2)
    else if IsAsciiLetter(c) then Step(Failure(0), 2)
    else Step(Success(Lit(['\\', c])), 2)
  }

  /** The escape at the start of `t`, with the length it takes. The tokenizer
      reads one token ahead, so a lone backslash that ends the template right
      after a bad escape raises first. */
  function Escape(t: string): (r: Result<(Piece, nat), TemplateError>)
    requires |t| >= 1 && t[0] == '\\'
    ensures r.Success? ==> 2 <= r.value.1 <= |t|
    ensures r.Failure? ==> r.error.at <= |t| && (r.error.at <= 3 || r.error.at == |t| - 1)
  {
    if |t| == 1 then Failure(TemplateError(0))
    else
      var s := EscapeStep(t);
      match s.outcome
      case Success(piece) => Success((piece, s.used))
      case Failure(at) =>
        if t[s.used..] == "\\" then Failure(TemplateError(|t| - 1)) else Failure(TemplateError(at))
  }

  /** Some backslash of `t` stands at or before position `at`. */
  predicate BackslashBy(t: string, at: nat)
  {
    exists k :: 0 <= k < |t| && k <= at && t[k] == '\\'
  }

  /** The parsed template, or the first error in it. */
  function Parse(t: string): (r: Result<seq<Piece>, TemplateError>)
    ensures r.Failure? ==> r.error.at <= |t|
    ensures r.Failure? ==> BackslashBy(t, r.error.at)
    decreases |t|
  {
    if |t| == 0 then Success([])
    else
      var step: Result<(Piece, nat), TemplateError> := if t[0] == '\\' then Escape(t) else Success((Lit([t[0]]), 1));
      match step
      case Failure(err) =>
        assert t[0] == '\\';
        Failure(err)
      case Success((piece, n)) =>
        match Parse(t[n..])
        case Failure(err) =>
          assert BackslashBy(t, n + err.at) by {
            var k :| 0 <= k < |t[n..]| && k <= err.at && t[n..][k] == '\\';
            assert t[n + k] == '\\';
          }
          Failure(TemplateError(n + err.at))
        case Success(ps) => Success([piece] + ps)
  }

  /** The replacement for one match `m`. */
  function Expand(ps: seq<Piece>, m: string): string
    decreases |ps|
  {
    if |ps| == 0 then []
    else (match ps[0] case Lit(s) => s case WholeMatch => m) + Expand(ps[1..], m)
  }

  /** A template without a backslash parses, and stands for itself whatever
      the match: the parse agrees with the literal use of such a template. */
  lemma {:induction false} LiteralTemplate(t: string, m: string)
    requires '\\' !in t
    ensures Parse(t).Success? && Expand(Parse(t).value, m) == t
    decreases |t|
  {
    if |t| > 0 {
      assert '\\' !in t[1..] by {
        assert forall k :: 0 <= k < |t[1..]| ==> t[1..][k] == t[k + 1];
      }
      LiteralTemplate(t[1..], m);
      LiteralHead(t);
      assert Parse(t).value[1..] == Parse(t[1..]).value;
    }
  }

  /** A first character other than a backslash is a literal piece. */
  lemma LiteralHead(t: string)
    requires |t| > 0 && t[0] != '\\' && Parse(t[1..]).Success?
    ensures Parse(t) == Success([Lit([t[0]])] + Parse(t[1..]).value)
  {
  }

  /** `s.replace('\\', r'\\')`: every backslash doubled. */
  function EscapeBackslashes(s: string): (r: string)
    ensures |r| >= |s|
    decreases |s|
  {
    if |s| == 0 then []
    else (if s[0] == '\\' then "\\\\" else [s[0]]) + EscapeBackslashes(s[1..])
  }

  /** Doubling the backslashes of any text gives a template that parses and
      stands for the text itself. */
  lemma {:induction false} EscapedTemplate(s: string, m: string)
    ensures Parse(EscapeBackslashes(s)).Success?
    ensures Expand(Parse(EscapeBackslashes(s)).value, m) == s
    decreases |s|
  {
    if |s| > 0 {
      EscapedTemplate(s[1..], m);
      EscapedHead(s);
      var ps := Parse(EscapeBackslashes(s[1..])).value;
      assert ([Lit([s[0]])] + ps)[1..] == ps;
    }
  }

  /** The escaped first character of a text parses back to itself, ahead of
      the escaped rest. */
  lemma EscapedHead(s: string)
    requires |s| > 0 && Parse(EscapeBackslashes(s[1..])).Success?
    ensures Parse(EscapeBackslashes(s)) == Success([Lit([s[0]])] + Parse(EscapeBackslashes(s[1..])).value)
  {
    var t, rest := EscapeBackslashes(s), EscapeBackslashes(s[1..]);
    if s[0] == '\\' {
      assert t == "\\\\" + rest;
      assert t[1] == '\\' && t[2..] == rest;
      DoubledBackslash(t);
    } else {
      assert t == [s[0]] + rest;
      assert t[0] == s[0] && t[1..] == rest;
    }
  }

  /** `\\` stands for one backslash. */
  lemma DoubledBackslash(t: string)
    requires |t| >= 2 && t[0] == '\\' && t[1] == '\\'
    ensures Escape(t) == Success((Lit(['\\']), 2))
  {
    assert !IsDigit(t[1]) && t[1] != 'g';
    assert SimpleEscape(t[1]) == Some('\\');
  }

  /** A numbered group reference raises at its digit: the pattern has no
      group 1. */
  lemma NumberedGroupRaises()
    ensures Parse("e:P\\1") == Failure(TemplateError(4))
  {
    assert EscapeStep("\\1") == Step(Failure(1), 2);
    assert Escape("\\1") == Failure(TemplateError(1));
    EscapeFails("\\1");
    LeadFails("e:P", "\\1");
    assert "e:P" + "\\1" == "e:P\\1";
  }

  /** `\g<1>` raises at the group name. */
  lemma BracketedGroupRaises()
    ensures Parse("e:P\\g<1>") == Failure(TemplateError(6))
  {
    var a := "\\g<1>";
    assert NameEnd(a, 3) == 4 by {
      assert a[3] != '>' && a[3] != '\\' && a[4] == '>';
    }
    assert a[3..4] == "1";
    assert a[5..] == [];
    assert Escape(a) == Failure(TemplateError(3));
    EscapeFails(a);
    LeadFails("e:P", a);
    assert "e:P" + a == "e:P\\g<1>";
  }

  /** A named group raises: the pattern has no named groups. */
  lemma NamedGroupRaises()
    ensures Parse("\\g<name>") == Failure(TemplateError(3))
  {
    var b := "\\g<name>";
    var q := NameEnd(b, 3);
    assert !AllDigits(b[3..q]) by {
      assert b[3] == 'n' && b[3] != '>' && b[3] != '\\';
      assert b[3..q][0] == 'n';
    }
    assert b[q + 1..] != "\\";
    assert Escape(b) == Failure(TemplateError(3));
    EscapeFails(b);
  }

  /** A template that starts with a bad escape raises where the escape
      does. */
  lemma EscapeFails(t: string)
    requires |t| >= 1 && t[0] == '\\' && Escape(t).Failure?
    ensures Parse(t) == Failure(Escape(t).error)
  {
  }

  /** A first character other than a backslash shifts the error of the rest
      by one. */
  lemma LiteralHeadFails(t: string)
    requires |t| > 0 && t[0] != '\\' && Parse(t[1..]).Failure?
    ensures Parse(t) == Failure(TemplateError(1 + Parse(t[1..]).error.at))
  {
  }

  /** A prefix without a backslash shifts the error of a template that
      raises by its length. */
  lemma {:induction false} LeadFails(lead: string, t: string)
    requires '\\' !in lead && Parse(t).Failure?
    ensures Parse(lead + t) == Failure(TemplateError(|lead| + Parse(t).error.at))
    decreases |lead|
  {
    if |lead| == 0 {
      assert lead + t == t;
    } else {
      var u := lead + t;
      assert u[0] == lead[0] && u[0] != '\\';
      assert u[1..] == lead[1..] + t;
      assert '\\' !in lead[1..] by {
        assert forall k :: 0 <= k < |lead[1..]| ==> lead[1..][k] == lead[k + 1];
      }
      LeadFails(lead[1..], t);
      LiteralHeadFails(u);
    }
  }

  /** An unknown letter escape raises at its backslash, and a trailing
      backslash at itself. */
  lemma BadEscapeRaises()
    ensures Parse("e:\\q") == Failure(TemplateError(2))
    ensures Parse("e:P\\") == Failure(TemplateError(3))
  {
    assert Escape("\\q") == Failure(TemplateError(0)) by {
      assert SimpleEscape('q') == None;
    }
    EscapeFails("\\q");
    LeadFails("e:", "\\q");
    EscapeFails("\\");
    LeadFails("e:P", "\\");
    assert "e:P" + "\\" == "e:P\\";
  }

  /** `\g` without `<` raises right after the `g`. */
  lemma MissingAngleRaises()
    ensures Parse("e:\\gx") == Failure(TemplateError(4))
  {
    assert Escape("\\gx") == Failure(TemplateError(2));
    EscapeFails("\\gx");
    LeadFails("e:", "\\gx");
  }

  /** The tokenizer reads one token ahead: a lone backslash that ends the
      template right after a bad escape raises before that escape does. */
  lemma TrailingBackslashFirst()
    ensures Parse("\\q\\") == Failure(TemplateError(2))
  {
    var c := "\\q\\";
    assert SimpleEscape(c[1]) == None;
    assert EscapeStep(c) == Step(Failure(0), 2);
    assert c[2..] == "\\";
  }

  /** An escape that makes up the whole template gives its one piece. */
  lemma WholeEscape(t: string, piece: Piece)
    requires |t| >= 1 && t[0] == '\\' && Escape(t) == Success((piece, |t|))
    ensures Parse(t) == Success([piece])
  {
    assert t[|t|..] == [];
    assert Parse([]) == Success([]);
    assert [piece] + [] == [piece];
  }

  /** `\g<0>` stands for the match, `\t` for a tab, and a backslash before a
      character that is not a letter, digit or backslash stays as written. */
  lemma EscapesExpand()
    ensures Parse("\\g<0>") == Success([WholeMatch])
    ensures Expand(Parse("\\g<00>").value, "?rd") == "?rd"
    ensures Parse("\\t") == Success([Lit([9 as char])])
    ensures Parse("\\.") == Success([Lit("\\.")])
    ensures Parse("\\101") == Success([Lit("A")])
    ensures Parse("\\400") == Failure(TemplateError(0))
  {
    var a := "\\g<0>";
    assert NameEnd(a, 3) == 4 by {
      assert a[3] != '>' && a[3] != '\\' && a[4] == '>';
    }
    assert a[3..4] == "0";
    WholeEscape(a, WholeMatch);
    var b := "\\g<00>";
    assert NameEnd(b, 3) == 5 by {
      assert b[3] != '>' && b[3] != '\\' && b[4] != '>' && b[4] != '\\' && b[5] == '>';
    }
    assert b[3..5] == "00";
    WholeEscape(b, WholeMatch);
    assert Expand([WholeMatch], "?rd") == "?rd" + Expand([], "?rd");
    assert SimpleEscape('t') == Some(9 as char);
    WholeEscape("\\t", Lit([9 as char]));
    assert SimpleEscape('.') == None;
    WholeEscape("\\.", Lit("\\."));
    WholeEscape("\\101", Lit("A"));
    assert OctalValue('4') == 4 && OctalValue('0') == 0;
    assert EscapeStep("\\400") == Step(Failure(0), 4);
    assert Escape("\\400") == Failure(TemplateError(0));
    EscapeFails("\\400");
  }
}
