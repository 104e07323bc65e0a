/**
 * ErrorHandler (trunk/owasp-jsp-testing-tool/.../report/ErrorHandler.java):
 * the HTML entity encoder and the stack-trace text the report's error page
 * shows, in an HTML flavour (lines separated by "<br>") and a tooltip
 * flavour (lines separated by the character reference "&#013;").
 *
 * Character.isLetterOrDigit consults the Unicode tables, which are not
 * modelled: it is the parameter `isLetterOrDigit`.
 */
module ErrorHandler {
  import opened JavaLang

  const HtmlNewLine: string := "<br>"
  const TooltipNewLine: string := "&#013;"
  const UnknownError: string := "Unknown Error"

  /** The lowest code the source turns into a numeric reference: decimal 20. */
  const AsWrittenLowest: nat := 20
  /** The lowest printable code, 0x20, which the encoder evidently meant. */
  const PrintableLowest: nat := 32

  /**
   * The text one character becomes: &, < and > as entity references, white
   * space, letters and digits as themselves, any other code from `lowest`
   * to 126 as a decimal numeric reference, anything else dropped.
   */
  function EncodeChar(c: char, isLetterOrDigit: char -> bool, lowest: nat): string
  {
    if c == '&' then "&amp;"
    else if c == '<' then "&lt;"
    else if c == '>' then "&gt;"
    else if IsJavaWhitespace(c) then [c]
    else if isLetterOrDigit(c) then [c]
    else if lowest <= c as int <= 126 then "&#" + NatToDecimal(c as int) + ";"
    else ""
  }

  /** Each character's text under f, in order. */
  function ConcatMap(s: string, f: char -> string): string
  {
    if s == [] then ""
    else ConcatMap(s[..|s| - 1], f) + f(s[|s| - 1])
  }

  /** EncodeChar as a function of the character alone. */
  function EncodeWith(isLetterOrDigit: char -> bool, lowest: nat): char -> string
  {
    c => EncodeChar(c, isLetterOrDigit, lowest)
  }

  /** The text htmlEntityEncode builds for s. */
  function Encoded(s: string, isLetterOrDigit: char -> bool, lowest: nat): string
  {
    ConcatMap(s, EncodeWith(isLetterOrDigit, lowest))
  }

  /** The loop of htmlEntityEncode, appending each character's text to the buffer. */
  method EncodeLoop(value: string, isLetterOrDigit: char -> bool, lowest: nat) returns (buff: string)
    ensures buff == Encoded(value, isLetterOrDigit, lowest)
  {
    buff := "";
    var i := 0;
    while i < |value|
      invariant 0 <= i <= |value|
      invariant buff == Encoded(value[..i], isLetterOrDigit, lowest)
    {
      var ch := value[i];
      assert value[..i + 1][..i] == value[..i];
      if ch == '&' {
        buff := buff + "&amp;";
      } else if ch == '<' {
        buff := buff + "&lt;";
      } else if ch == '>' {
        buff := buff + "&gt;";
      } else if IsJavaWhitespace(ch) {
        buff := buff + [ch];
      } else if isLetterOrDigit(ch) {
        buff := buff + [ch];
      } else if lowest <= ch as int <= 126 {
        buff := buff + "&#" + NatToDecimal(ch as int) + ";";
      }
      i := i + 1;
    }
    assert value[..i] == value;
  }

  /** htmlEntityEncode exactly as written, with 20 as the lowest encoded code. */
  method HtmlEntityEncodeAsWritten(value: JString, isLetterOrDigit: char -> bool) returns (r: JString)
    ensures value.None? ==> r.None?
    ensures value.Some? ==> r == Some(Encoded(value.value, isLetterOrDigit, AsWrittenLowest))
  {
    if value.None? {
      return None;
    }
    var buff := EncodeLoop(value.value, isLetterOrDigit, AsWrittenLowest);
    return Some(buff);
  }

  /** htmlEntityEncode with the printable range starting at 0x20. */
  method HtmlEntityEncode(value: JString, isLetterOrDigit: char -> bool) returns (r: JString)
    ensures value.None? ==> r.None?
    ensures value.Some? ==> r == Some(Encoded(value.value, isLetterOrDigit, PrintableLowest))
  {
    if value.None? {
      return None;
    }
    var buff := EncodeLoop(value.value, isLetterOrDigit, PrintableLowest);
    return Some(buff);
  }

  // ---------------------------------------------------------------------
  // Properties of the encoder

  /** The three markup characters become their entity references. */
  lemma MarkupCharacters(isLetterOrDigit: char -> bool, lowest: nat)
    ensures Encoded("&", isLetterOrDigit, lowest) == "&amp;"
    ensures Encoded("<", isLetterOrDigit, lowest) == "&lt;"
    ensures Encoded(">", isLetterOrDigit, lowest) == "&gt;"
  {
    assert "&"[..0] == [];
    assert "<"[..0] == [];
    assert ">"[..0] == [];
  }

  /** White space, letters and digits other than the markup characters come out unchanged. */
  lemma PlainCharactersKept(c: char, isLetterOrDigit: char -> bool, lowest: nat)
    requires c != '&' && c != '<' && c != '>'
    requires IsJavaWhitespace(c) || isLetterOrDigit(c)
    ensures Encoded([c], isLetterOrDigit, lowest) == [c]
  {
    var f := EncodeWith(isLetterOrDigit, lowest);
    assert [c][..0] == [];
    assert ConcatMap([c], f) == ConcatMap([], f) + f(c);
  }

  /** One more character appends its text. */
  lemma ConcatMapSnoc(s: string, c: char, f: char -> string)
    ensures ConcatMap(s + [c], f) == ConcatMap(s, f) + f(c)
  {
    assert (s + [c])[..|s|] == s;
  }

  /** Mapping a concatenation concatenates the maps. */
  lemma {:induction false} ConcatMapAppend(a: string, b: string, f: char -> string)
    ensures ConcatMap(a + b, f) == ConcatMap(a, f) + ConcatMap(b, f)
    decreases |b|
  {
    if b == [] {
      assert a + b == a;
    } else {
      var b', c := b[..|b| - 1], b[|b| - 1];
      assert b == b' + [c];
      assert a + b == (a + b') + [c];
      ConcatMapAppend(a, b', f);
      ConcatMapSnoc(a + b', c, f);
      ConcatMapSnoc(b', c, f);
      assert ConcatMap(a, f) + ConcatMap(b', f) + f(c) == ConcatMap(a, f) + (ConcatMap(b', f) + f(c));
    }
  }

  /** Encoding works character by character. */
  lemma EncodedAppend(a: string, b: string, isLetterOrDigit: char -> bool, lowest: nat)
    ensures Encoded(a + b, isLetterOrDigit, lowest) == Encoded(a, isLetterOrDigit, lowest) + Encoded(b, isLetterOrDigit, lowest)
  {
    ConcatMapAppend(a, b, EncodeWith(isLetterOrDigit, lowest));
  }

  lemma EncodeCharNoAngle(c: char, isLetterOrDigit: char -> bool, lowest: nat)
    ensures '<' !in EncodeChar(c, isLetterOrDigit, lowest) && '>' !in EncodeChar(c, isLetterOrDigit, lowest)
  {
    if !(c == '&' || c == '<' || c == '>' || IsJavaWhitespace(c) || isLetterOrDigit(c)) && lowest <= c as int <= 126 {
      var d := NatToDecimal(c as int);
      assert EncodeChar(c, isLetterOrDigit, lowest) == "&#" + d + ";";
      assert forall i :: 0 <= i < |d| ==> d[i] != '<' && d[i] != '>';
    }
  }

  /** Encoded text never holds '<' or '>', whatever the input. */
  lemma {:induction false} EncodedNoAngle(s: string, isLetterOrDigit: char -> bool, lowest: nat)
    ensures '<' !in Encoded(s, isLetterOrDigit, lowest) && '>' !in Encoded(s, isLetterOrDigit, lowest)
    decreases |s|
  {
    if s != [] {
      EncodedNoAngle(s[..|s| - 1], isLetterOrDigit, lowest);
      EncodeCharNoAngle(s[|s| - 1], isLetterOrDigit, lowest);
    }
  }

  /**
   * As written, the control characters U+0014 to U+001B become numeric
   * references (U+0014 as "&#20;"), while the control characters below
   * U+0014 that are not white space (U+0000 to U+0008 and U+000E to
   * U+0013) are dropped; references to C0 controls are not allowed in
   * HTML 4.01.
   */
  lemma AsWrittenEncodesControlCharacter(isLetterOrDigit: char -> bool)
    requires !isLetterOrDigit('\U{14}') && !isLetterOrDigit('\U{13}')
    ensures Encoded("\U{14}", isLetterOrDigit, AsWrittenLowest) == "&#20;"
    ensures Encoded("\U{13}", isLetterOrDigit, AsWrittenLowest) == ""
  {
    assert "\U{14}"[..0] == [];
    assert "\U{13}"[..0] == [];
    assert NatToDecimal(20) == "20";
  }

  /** What a character of the corrected encoder may become. */
  predicate IsPrintableReference(t: string)
  {
    exists k :: 33 <= k <= 126 && t == "&#" + NatToDecimal(k) + ";"
  }

  /**
   * With the corrected bound every numeric reference names a printable
   * ASCII character, and no control character is referenced: each
   * character becomes an entity reference, itself, a printable reference
   * or nothing.
   */
  lemma CorrectedReferencesPrintable(c: char, isLetterOrDigit: char -> bool)
    ensures var t := EncodeChar(c, isLetterOrDigit, PrintableLowest);
      t in {"&amp;", "&lt;", "&gt;", "", [c]} || IsPrintableReference(t)
    ensures (c as int < 32 && !IsJavaWhitespace(c) && !isLetterOrDigit(c)) ==> EncodeChar(c, isLetterOrDigit, PrintableLowest) == ""
  {
    var t := EncodeChar(c, isLetterOrDigit, PrintableLowest);
    if !(c == '&' || c == '<' || c == '>' || IsJavaWhitespace(c) || isLetterOrDigit(c)) && PrintableLowest <= c as int <= 126 {
      assert c as int != 32;
      assert 33 <= c as int <= 126 && t == "&#" + NatToDecimal(c as int) + ";";
    }
  }

  // ---------------------------------------------------------------------
  // Stack traces

  /** A Throwable: its message (null allowed) and the text of each stack frame. */
  datatype Throwable = Throwable(message: JString, stackTrace: seq<string>)

  /** What buildStackTrace produced: a string, or a NullPointerException it raised. */
  datatype Outcome = Returned(text: string) | NullPointer

  /** The frames, each after a separator, encoded with `lowest` as the lowest referenced code. */
  function FramesText(frames: seq<string>, newLineChar: string, isLetterOrDigit: char -> bool, lowest: nat): string
  {
    if frames == [] then ""
    else FramesText(frames[..|frames| - 1], newLineChar, isLetterOrDigit, lowest)
         + newLineChar + Encoded(frames[|frames| - 1], isLetterOrDigit, lowest)
  }

  /** The loop of buildStackTrace, appending each frame after the buffer's start. */
  method AppendFrames(start: string, frames: seq<string>, newLineChar: string, isLetterOrDigit: char -> bool, lowest: nat)
    returns (errorMessage: string)
    ensures errorMessage == start + FramesText(frames, newLineChar, isLetterOrDigit, lowest)
  {
    errorMessage := start;
    var traceIdx := 0;
    while traceIdx < |frames|
      invariant 0 <= traceIdx <= |frames|
      invariant errorMessage == start + FramesText(frames[..traceIdx], newLineChar, isLetterOrDigit, lowest)
    {
      FramesTextStep(frames, traceIdx, newLineChar, isLetterOrDigit, lowest);
      var frame := EncodeLoop(frames[traceIdx], isLetterOrDigit, lowest);
      errorMessage := errorMessage + (newLineChar + frame);
      traceIdx := traceIdx + 1;
    }
    assert frames[..traceIdx] == frames;
  }

  lemma FramesTextStep(frames: seq<string>, i: int, newLineChar: string, isLetterOrDigit: char -> bool, lowest: nat)
    requires 0 <= i < |frames|
    ensures FramesText(frames[..i + 1], newLineChar, isLetterOrDigit, lowest)
         == FramesText(frames[..i], newLineChar, isLetterOrDigit, lowest) + (newLineChar + Encoded(frames[i], isLetterOrDigit, lowest))
  {
    assert frames[..i + 1][..i] == frames[..i];
  }

  /**
   * buildStackTrace as written: a null message reaches new
   * StringBuffer(null), which throws.
   */
  method BuildStackTraceAsWritten(throwable: Option<Throwable>, newLineChar: string, isLetterOrDigit: char -> bool)
    returns (r: Outcome)
    ensures throwable.None? ==> r == Returned(UnknownError)
    ensures throwable.Some? && throwable.value.message.None? ==> r == NullPointer
    ensures throwable.Some? && throwable.value.message.Some? ==>
      r == Returned(Encoded(throwable.value.message.value, isLetterOrDigit, AsWrittenLowest)
                    + FramesText(throwable.value.stackTrace, newLineChar, isLetterOrDigit, AsWrittenLowest))
  {
    if throwable.None? {
      return Returned(UnknownError);
    }
    var message := HtmlEntityEncodeAsWritten(throwable.value.message, isLetterOrDigit);
    if message.None? {
      return NullPointer;
    }
    var text := AppendFrames(message.value, throwable.value.stackTrace, newLineChar, isLetterOrDigit, AsWrittenLowest);
    return Returned(text);
  }

  /**
   * The text buildStackTrace returns as written, where it returns: the
   * encoded message (a missing one never gets this far) and the frames,
   * with 20 as the encoder's lowest referenced code.
   */
  function StackTraceAsWritten(throwable: Option<Throwable>, newLineChar: string, isLetterOrDigit: char -> bool): string
  {
    if throwable.None? then UnknownError
    else Encoded(throwable.value.message.GetOr(""), isLetterOrDigit, AsWrittenLowest)
         + FramesText(throwable.value.stackTrace, newLineChar, isLetterOrDigit, AsWrittenLowest)
  }

  /** The intended result: a throwable without a message shows its frames alone. */
  function StackTrace(throwable: Option<Throwable>, newLineChar: string, isLetterOrDigit: char -> bool): string
  {
    if throwable.None? then UnknownError
    else
      var message := if throwable.value.message.Some?
        then Encoded(throwable.value.message.value, isLetterOrDigit, PrintableLowest) else "";
      message + FramesText(throwable.value.stackTrace, newLineChar, isLetterOrDigit, PrintableLowest)
  }

  /** buildStackTrace, corrected: never throws. */
  method BuildStackTrace(throwable: Option<Throwable>, newLineChar: string, isLetterOrDigit: char -> bool)
    returns (r: string)
    ensures r == StackTrace(throwable, newLineChar, isLetterOrDigit)
  {
    if throwable.None? {
      return UnknownError;
    }
    var message := HtmlEntityEncode(throwable.value.message, isLetterOrDigit);
    r := AppendFrames(message.GetOr(""), throwable.value.stackTrace, newLineChar, isLetterOrDigit, PrintableLowest);
  }

  /**
   * buildHtmlStackTrace as written: the as-written builder with "<br>"
   * between the lines, so a throwable without a message throws.
   */
  method BuildHtmlStackTraceAsWritten(throwable: Option<Throwable>, isLetterOrDigit: char -> bool) returns (r: Outcome)
    ensures throwable.Some? && throwable.value.message.None? <==> r == NullPointer
    ensures r.Returned? ==> r.text == StackTraceAsWritten(throwable, HtmlNewLine, isLetterOrDigit)
  {
    r := BuildStackTraceAsWritten(throwable, HtmlNewLine, isLetterOrDigit);
  }

  /** buildTooltipStackTrace as written, with "&#013;" between the lines. */
  method BuildTooltipStackTraceAsWritten(throwable: Option<Throwable>, isLetterOrDigit: char -> bool) returns (r: Outcome)
    ensures throwable.Some? && throwable.value.message.None? <==> r == NullPointer
    ensures r.Returned? ==> r.text == StackTraceAsWritten(throwable, TooltipNewLine, isLetterOrDigit)
  {
    r := BuildStackTraceAsWritten(throwable, TooltipNewLine, isLetterOrDigit);
  }

  /** buildHtmlStackTrace, corrected: the corrected builder with "<br>" between the lines. */
  method BuildHtmlStackTrace(throwable: Option<Throwable>, isLetterOrDigit: char -> bool) returns (r: string)
    ensures r == StackTrace(throwable, HtmlNewLine, isLetterOrDigit)
  {
    r := BuildStackTrace(throwable, HtmlNewLine, isLetterOrDigit);
  }

  /** buildTooltipStackTrace, corrected. */
  method BuildTooltipStackTrace(throwable: Option<Throwable>, isLetterOrDigit: char -> bool) returns (r: string)
    ensures r == StackTrace(throwable, TooltipNewLine, isLetterOrDigit)
  {
    r := BuildStackTrace(throwable, TooltipNewLine, isLetterOrDigit);
  }

  // ---------------------------------------------------------------------
  // Properties of the stack-trace text

  function CountChar(s: string, c: char): nat
  {
    if s == [] then 0 else CountChar(s[..|s| - 1], c) + (if s[|s| - 1] == c then 1 else 0)
  }

  lemma {:induction false} CountCharAppend(a: string, b: string, c: char)
    ensures CountChar(a + b, c) == CountChar(a, c) + CountChar(b, c)
    decreases |b|
  {
    if b == [] {
      assert a + b == a;
    } else {
      var b' := b[..|b| - 1];
      assert (a + b)[..|a + b| - 1] == a + b';
      CountCharAppend(a, b', c);
    }
  }

  lemma {:induction false} CountCharAbsent(s: string, c: char)
    requires c !in s
    ensures CountChar(s, c) == 0
    decreases |s|
  {
    if s != [] {
      assert s[..|s| - 1] <= s;
      CountCharAbsent(s[..|s| - 1], c);
    }
  }

  lemma {:induction false} HtmlFramesCount(frames: seq<string>, isLetterOrDigit: char -> bool)
    ensures CountChar(FramesText(frames, HtmlNewLine, isLetterOrDigit, PrintableLowest), '<') == |frames|
    decreases |frames|
  {
    if frames != [] {
      var p := frames[..|frames| - 1];
      var e := Encoded(frames[|frames| - 1], isLetterOrDigit, PrintableLowest);
      HtmlFramesCount(p, isLetterOrDigit);
      EncodedNoAngle(frames[|frames| - 1], isLetterOrDigit, PrintableLowest);
      CountCharAbsent(e, '<');
      assert CountChar(HtmlNewLine, '<') == 1 by {
        assert HtmlNewLine == "<" + "br>";
        CountCharAbsent("br>", '<');
        CountCharAppend("<", "br>", '<');
        assert "<"[..0] == [];
      }
      CountCharAppend(FramesText(p, HtmlNewLine, isLetterOrDigit, PrintableLowest), HtmlNewLine, '<');
      CountCharAppend(FramesText(p, HtmlNewLine, isLetterOrDigit, PrintableLowest) + HtmlNewLine, e, '<');
    }
  }

  /**
   * In the HTML flavour every '<' opens a line break, one per stack frame,
   * so the message and the frames cannot inject markup of their own.
   */
  lemma HtmlStackTraceLines(t: Throwable, isLetterOrDigit: char -> bool)
    ensures CountChar(StackTrace(Some(t), HtmlNewLine, isLetterOrDigit), '<') == |t.stackTrace|
  {
    var m := if t.message.Some? then Encoded(t.message.value, isLetterOrDigit, PrintableLowest) else "";
    if t.message.Some? {
      EncodedNoAngle(t.message.value, isLetterOrDigit, PrintableLowest);
    }
    CountCharAbsent(m, '<');
    HtmlFramesCount(t.stackTrace, isLetterOrDigit);
    CountCharAppend(m, FramesText(t.stackTrace, HtmlNewLine, isLetterOrDigit, PrintableLowest), '<');
  }

  lemma {:induction false} TooltipFramesNoAngle(frames: seq<string>, isLetterOrDigit: char -> bool)
    ensures var f := FramesText(frames, TooltipNewLine, isLetterOrDigit, PrintableLowest);
      '<' !in f && '>' !in f
    decreases |frames|
  {
    if frames != [] {
      TooltipFramesNoAngle(frames[..|frames| - 1], isLetterOrDigit);
      EncodedNoAngle(frames[|frames| - 1], isLetterOrDigit, PrintableLowest);
    }
  }

  /** The tooltip flavour holds no '<' or '>' at all, so it fits in an attribute value. */
  lemma TooltipStackTraceNoAngle(throwable: Option<Throwable>, isLetterOrDigit: char -> bool)
    ensures var r := StackTrace(throwable, TooltipNewLine, isLetterOrDigit);
      '<' !in r && '>' !in r
  {
    if throwable.Some? {
      if throwable.value.message.Some? {
        EncodedNoAngle(throwable.value.message.value, isLetterOrDigit, PrintableLowest);
      }
      TooltipFramesNoAngle(throwable.value.stackTrace, isLetterOrDigit);
    }
  }

  /** No character of s is one the two encoder bounds treat differently. */
  predicate OutsideBoundGap(s: string, isLetterOrDigit: char -> bool)
  {
    forall i :: 0 <= i < |s| ==>
      !(AsWrittenLowest <= s[i] as int < PrintableLowest) || IsJavaWhitespace(s[i]) || isLetterOrDigit(s[i])
  }

  /** Outside U+0014..U+001F the two encoders agree. */
  lemma {:induction false} EncodedBoundsAgree(s: string, isLetterOrDigit: char -> bool)
    requires OutsideBoundGap(s, isLetterOrDigit)
    ensures Encoded(s, isLetterOrDigit, AsWrittenLowest) == Encoded(s, isLetterOrDigit, PrintableLowest)
    decreases |s|
  {
    if s != [] {
      var p := s[..|s| - 1];
      assert OutsideBoundGap(p, isLetterOrDigit) by {
        forall i | 0 <= i < |p| ensures p[i] == s[i] { }
      }
      EncodedBoundsAgree(p, isLetterOrDigit);
      var c := s[|s| - 1];
      assert EncodeChar(c, isLetterOrDigit, AsWrittenLowest) == EncodeChar(c, isLetterOrDigit, PrintableLowest);
    }
  }

  lemma {:induction false} FramesBoundsAgree(frames: seq<string>, newLineChar: string, isLetterOrDigit: char -> bool)
    requires forall i :: 0 <= i < |frames| ==> OutsideBoundGap(frames[i], isLetterOrDigit)
    ensures FramesText(frames, newLineChar, isLetterOrDigit, AsWrittenLowest)
         == FramesText(frames, newLineChar, isLetterOrDigit, PrintableLowest)
    decreases |frames|
  {
    if frames != [] {
      var p := frames[..|frames| - 1];
      FramesBoundsAgree(p, newLineChar, isLetterOrDigit);
      EncodedBoundsAgree(frames[|frames| - 1], isLetterOrDigit);
    }
  }

  /**
   * Where the source does not throw, the corrected builder differs from it
   * only through the encoder's lower bound: with a message, and no
   * character of the message or the frames in U+0014..U+001F other than
   * white space, the two texts are the same.
   */
  lemma CorrectedMatchesAsWrittenWithMessage(t: Throwable, newLineChar: string, isLetterOrDigit: char -> bool)
    requires t.message.Some? && OutsideBoundGap(t.message.value, isLetterOrDigit)
    requires forall i :: 0 <= i < |t.stackTrace| ==> OutsideBoundGap(t.stackTrace[i], isLetterOrDigit)
    ensures StackTrace(Some(t), newLineChar, isLetterOrDigit) == StackTraceAsWritten(Some(t), newLineChar, isLetterOrDigit)
  {
    EncodedBoundsAgree(t.message.value, isLetterOrDigit);
    FramesBoundsAgree(t.stackTrace, newLineChar, isLetterOrDigit);
  }
}
