/** The format-template renderer of `LogWrite`: a left-to-right scan of the
    template that copies literal characters and expands `%` tokens against
    the message context. The scan works on the bytes of a `std::string`, so
    every `char` here stands for one byte (0..255): a character that UTF-8
    encodes in several bytes is several `char`s. */
module Renderer {
  import opened Wrappers
  import Decimal
  import Attributes

  /** A source line number, an unsigned 32-bit value. */
  type LineNumber = n: nat | n < 0x1_0000_0000

  /** What one log statement supplies: its severity code, the source file,
      function and line, the message body, and the time stamp already
      rendered for the configured mode. */
  datatype Context = Context(
    level: int,
    file: string,
    func: string,
    line: LineNumber,
    message: string,
    timeStamp: string)

  /** The terminator of a C string; the scan stops at the first one. */
  const Nul: char := 0 as char

  predicate NoNul(s: string) {
    forall i :: 0 <= i < |s| ==> s[i] != Nul
  }

  predicate NoPercent(s: string) {
    forall i :: 0 <= i < |s| ==> s[i] != '%'
  }

  /** `%C`: the line in decimal, or "??" when the line is 0. */
  function LineText(line: LineNumber): string {
    if line != 0 then Decimal.NatToDecimal(line) else "??"
  }

  /** The `%C` text tells the line back: "??" exactly for line 0, otherwise
      a numeral that parses to the line. */
  lemma LineTextReadsBack(line: LineNumber)
    ensures line == 0 <==> LineText(line) == "??"
    ensures line != 0 ==> Decimal.ParseNat(LineText(line)) == Some(line as nat)
  {
    if line != 0 {
      Decimal.NatRoundTrip(line);
    }
  }

  /** The text a `%` followed by `token` stands for. */
  function Expand(token: char, ctx: Context): string {
    match token
    case '%' => "%"
    case 'T' => ctx.timeStamp
    case 'F' => ctx.file
    case 'C' => LineText(ctx.line)
    case 'P' => ctx.func
    case 'L' => Attributes.SeverityName(ctx.level)
    case 'S' => ctx.message
    case _ => ""
  }

  /** The rendered text of a template, as the scan evidently intends it. The
      template ends at its end or at its first NUL; a `%` with nothing after
      it renders as "%" and a line break and ends the template. (The scan as
      written, `ScanCString`, steps over a NUL that follows a `%` and goes
      on.) */
  function Render(format: string, ctx: Context): string
    decreases |format|
  {
    if |format| == 0 || format[0] == Nul then ""
    else if format[0] != '%' then [format[0]] + Render(format[1..], ctx)
    else if |format| == 1 || format[1] == Nul then "%\n"
    else Expand(format[1], ctx) + Render(format[2..], ctx)
  }

  /** True when the template, read token by token, ends in a `%` that has no
      character after it. */
  predicate Dangling(format: string)
    decreases |format|
  {
    if |format| == 0 then false
    else if format[0] != '%' then Dangling(format[1..])
    else |format| == 1 || Dangling(format[2..])
  }

  /** What each token renders to: the seven recognised ones, and nothing for
      any other character after `%`. */
  lemma TokenMeanings(c: char, rest: string, ctx: Context)
    requires c != Nul
    ensures Render(['%', c] + rest, ctx) == Expand(c, ctx) + Render(rest, ctx)
    ensures Expand('%', ctx) == "%"
    ensures Expand('T', ctx) == ctx.timeStamp
    ensures Expand('F', ctx) == ctx.file
    ensures Expand('C', ctx) == (if ctx.line == 0 then "??" else Decimal.NatToDecimal(ctx.line))
    ensures Expand('P', ctx) == ctx.func
    ensures Expand('L', ctx) == Attributes.SeverityName(ctx.level)
    ensures Expand('S', ctx) == ctx.message
    ensures c !in "%TFCPLS" ==> Expand(c, ctx) == ""
  {
    assert (['%', c] + rest)[2..] == rest;
  }

  /** A template without `%` or NUL renders to itself. */
  lemma {:induction false} VerbatimWithoutPercent(format: string, ctx: Context)
    requires NoPercent(format) && NoNul(format)
    ensures Render(format, ctx) == format
    decreases |format|
  {
    if |format| > 0 {
      VerbatimWithoutPercent(format[1..], ctx);
    }
  }

  /** Rendering distributes over concatenation when the first part does not
      end in an unpaired `%`. */
  lemma {:induction false} RenderAppend(a: string, b: string, ctx: Context)
    requires NoNul(a) && !Dangling(a)
    ensures Render(a + b, ctx) == Render(a, ctx) + Render(b, ctx)
    decreases |a|
  {
    if |a| == 0 {
      assert a + b == b;
    } else {
      if a[0] != '%' {
        assert (a + b)[1..] == a[1..] + b;
        RenderAppend(a[1..], b, ctx);
      } else {
        assert (a + b)[2..] == a[2..] + b;
        RenderAppend(a[2..], b, ctx);
      }
    }
  }

  /** A template ending in an unpaired `%` renders as the rest of it followed
      by "%" and a line break. */
  lemma {:induction false} DanglingPercentEndsLine(format: string, ctx: Context)
    requires NoNul(format) && Dangling(format)
    ensures !Dangling(format[..|format| - 1])
    ensures Render(format, ctx) == Render(format[..|format| - 1], ctx) + "%\n"
    decreases |format|
  {
    if format[0] != '%' {
      assert format[1..][..|format[1..]| - 1] == format[..|format| - 1][1..];
      DanglingPercentEndsLine(format[1..], ctx);
    } else if |format| > 1 {
      assert format[2..][..|format[2..]| - 1] == format[..|format| - 1][2..];
      DanglingPercentEndsLine(format[2..], ctx);
    }
  }

  /** Doubles every `%`, so that a text can be used as a template that
      renders to it. */
  function Escape(text: string): (r: string)
    ensures !Dangling(r)
    decreases |text|
  {
    if |text| == 0 then ""
    else
      var tail := Escape(text[1..]);
      if text[0] == '%' then
        assert ("%%" + tail)[2..] == tail;
        "%%" + tail
      else
        assert ([text[0]] + tail)[1..] == tail;
        [text[0]] + tail
  }

  /** Escaping then rendering gives back the text, whatever the context. */
  lemma {:induction false} RenderEscaped(text: string, ctx: Context)
    requires NoNul(text)
    ensures Render(Escape(text), ctx) == text
    decreases |text|
  {
    if |text| > 0 {
      RenderEscaped(text[1..], ctx);
      var tail := Escape(text[1..]);
      if text[0] == '%' {
        assert ("%%" + tail)[2..] == tail;
      } else {
        assert ([text[0]] + tail)[1..] == tail;
      }
    }
  }

  /** The scan as a loop over the template, one or two characters at a time. */
  method RenderScan(format: string, ctx: Context) returns (out: string)
    ensures out == Render(format, ctx)
  {
    out := "";
    var i := 0;
    while i < |format| && format[i] != Nul
      invariant 0 <= i <= |format|
      invariant out + Render(format[i..], ctx) == Render(format, ctx)
      decreases |format| - i
    {
      var rest := format[i..];
      if format[i] == '%' {
        if i + 1 == |format| || format[i + 1] == Nul {
          assert Render(rest, ctx) == "%\n";
          out := out + "%\n";
          return;
        }
        assert rest[2..] == format[i + 2..];
        out := out + Expand(format[i + 1], ctx);
        i := i + 2;
      } else {
        assert rest[1..] == format[i + 1..];
        out := out + [format[i]];
        i := i + 1;
      }
    }
  }

  /** The default template of a new logger. */
  const DefaultFormat: string := "[%T] [%F:%C %P] [%L] :: %S"

  /** The default template read as the three parts its example is proved
      in: up to the file token, the line and function tokens, and the rest. */
  lemma DefaultFormatText()
    ensures DefaultFormat == "[%T] [%F:" + ("%C %P" + "] [%L] :: %S")
  {
  }

  /** The default template with no time stamp, file a.c, line 10, function
      f, level INFO and message hi. */
  lemma DefaultFormatExample()
    ensures Render(DefaultFormat,
                   Context(Attributes.Severity.Info.Code(), "a.c", "f", 10, "hi",
                           Attributes.TimeStamp(Attributes.TimeStampMode.NoTimeStamp.Code(), Attributes.Clock(0, ""))))
         == "[] [a.c:10 f] [INFO] :: hi"
  {
    var stamp := Attributes.TimeStamp(Attributes.TimeStampMode.NoTimeStamp.Code(), Attributes.Clock(0, ""));
    Attributes.NoTimeStampIsEmpty(Attributes.Clock(0, ""));
    DefaultFormatRenders(Context(Attributes.Severity.Info.Code(), "a.c", "f", 10, "hi", stamp));
  }

  /** The example, proved piece by piece: each literal part renders to
      itself and each token to its expansion. */
  lemma DefaultFormatRenders(ctx: Context)
    requires ctx.timeStamp == "" && ctx.file == "a.c" && ctx.func == "f" && ctx.message == "hi"
    requires ctx.line == 10 && ctx.level == Attributes.Severity.Info.Code()
    ensures Render(DefaultFormat, ctx) == "[] [a.c:10 f] [INFO] :: hi"
  {
    var tail := "] [%L] :: %S";
    var middle := "%C %P" + tail;
    DefaultFormatText();
    ExampleTail(ctx);
    ExampleMiddle(ctx, tail);
    ExampleHead(ctx, middle);
    ExampleText();
  }

  lemma ExampleText()
    ensures "[] [a.c:" + ("10 f" + "] [INFO] :: hi") == "[] [a.c:10 f] [INFO] :: hi"
  {
  }

  /** A run of literal characters renders to itself, and rendering goes on
      with what follows it. */
  lemma {:induction false} VerbatimThen(a: string, rest: string, ctx: Context)
    requires NoPercent(a) && NoNul(a)
    ensures Render(a + rest, ctx) == a + Render(rest, ctx)
    decreases |a|
  {
    if |a| == 0 {
      assert a + rest == rest;
    } else {
      assert (a + rest)[1..] == a[1..] + rest;
      VerbatimThen(a[1..], rest, ctx);
      assert a + Render(rest, ctx) == [a[0]] + (a[1..] + Render(rest, ctx));
    }
  }

  lemma ExampleHead(ctx: Context, rest: string)
    requires ctx.timeStamp == "" && ctx.file == "a.c"
    ensures Render("[%T] [%F:" + rest, ctx) == "[] [a.c:" + Render(rest, ctx)
  {
    var r0 := ":" + rest;
    var r1 := ['%', 'F'] + r0;
    var r2 := "] [" + r1;
    var r3 := ['%', 'T'] + r2;
    HeadText(rest, Render(rest, ctx));
    VerbatimThen(":", rest, ctx);
    TokenMeanings('F', r0, ctx);
    VerbatimThen("] [", r1, ctx);
    TokenMeanings('T', r2, ctx);
    VerbatimThen("[", r3, ctx);
  }

  lemma HeadText(rest: string, x: string)
    ensures "[%T] [%F:" + rest == "[" + (['%', 'T'] + ("] [" + (['%', 'F'] + (":" + rest))))
    ensures "[" + ("" + ("] [" + ("a.c" + (":" + x)))) == "[] [a.c:" + x
  {
  }

  lemma ExampleMiddle(ctx: Context, rest: string)
    requires ctx.line == 10 && ctx.func == "f"
    ensures Render("%C %P" + rest, ctx) == "10 f" + Render(rest, ctx)
  {
    var r0 := ['%', 'P'] + rest;
    var r1 := " " + r0;
    MiddleText(rest, Render(rest, ctx));
    assert Decimal.NatToDecimal(1) == "1";
    assert LineText(ctx.line) == "10";
    TokenMeanings('P', rest, ctx);
    VerbatimThen(" ", r0, ctx);
    TokenMeanings('C', r1, ctx);
  }

  lemma MiddleText(rest: string, x: string)
    ensures "%C %P" + rest == ['%', 'C'] + (" " + (['%', 'P'] + rest))
    ensures "10" + (" " + ("f" + x)) == "10 f" + x
  {
  }

  lemma ExampleTail(ctx: Context)
    requires ctx.level == Attributes.Severity.Info.Code() && ctx.message == "hi"
    ensures Render("] [%L] :: %S", ctx) == "] [INFO] :: hi"
  {
    var r0 := ['%', 'S'] + "";
    var r1 := "] :: " + r0;
    var r2 := ['%', 'L'] + r1;
    TailText();
    TokenMeanings('S', "", ctx);
    VerbatimThen("] :: ", r0, ctx);
    TokenMeanings('L', r1, ctx);
    VerbatimThen("] [", r2, ctx);
    assert Attributes.SeverityName(ctx.level) == "INFO";
  }

  lemma TailText()
    ensures "] [%L] :: %S" == "] [" + (['%', 'L'] + ("] :: " + (['%', 'S'] + "")))
    ensures "] [" + ("INFO" + ("] :: " + ("hi" + ""))) == "] [INFO] :: hi"
  {
  }

  /** Nothing after the first NUL of a template is rendered. */
  lemma {:induction false} RenderEndsAtNul(a: string, b: string, ctx: Context)
    requires NoNul(a)
    ensures Render(a + ([Nul] + b), ctx) == Render(a, ctx)
    decreases |a|
  {
    var s := a + ([Nul] + b);
    if |a| == 0 {
      assert s[0] == Nul;
    } else if a[0] != '%' {
      assert s[1..] == a[1..] + ([Nul] + b);
      RenderEndsAtNul(a[1..], b, ctx);
    } else if |a| == 1 {
      assert s[1] == Nul;
    } else {
      assert s[1] == a[1];
      assert s[2..] == a[2..] + ([Nul] + b);
      RenderEndsAtNul(a[2..], b, ctx);
    }
  }

  /** The template as the C string `c_str()` exposes it. */
  function CString(format: string): string {
    format + [Nul]
  }

  function Prepend(prefix: string, rest: Option<string>): Option<string> {
    match rest
    case Some(s) => Some(prefix + s)
    case None => None
  }

  /** The pointer scan as written, over the memory `mem` from index `i`: it
      stops at a NUL, and after a `%` it always advances past the next
      character, even when that character is the terminator. None means the
      scan read outside `mem`. */
  function ScanCString(mem: string, i: nat, ctx: Context): Option<string>
    decreases |mem| + 1 - i
  {
    if i >= |mem| then None
    else if mem[i] == Nul then Some("")
    else if mem[i] != '%' then Prepend([mem[i]], ScanCString(mem, i + 1, ctx))
    else if i + 1 >= |mem| then None
    else if mem[i + 1] == Nul then Prepend("%\n", ScanCString(mem, i + 2, ctx))
    else Prepend(Expand(mem[i + 1], ctx), ScanCString(mem, i + 2, ctx))
  }

  lemma {:induction false} ScanSuffix(format: string, i: nat, ctx: Context)
    requires i <= |format| && NoNul(format) && !Dangling(format[i..])
    ensures ScanCString(CString(format), i, ctx) == Some(Render(format[i..], ctx))
    decreases |format| - i
  {
    var mem := CString(format);
    var rest := format[i..];
    if i < |format| {
      if format[i] != '%' {
        assert rest[1..] == format[i + 1..];
        ScanSuffix(format, i + 1, ctx);
      } else {
        assert rest[2..] == format[i + 2..];
        ScanSuffix(format, i + 2, ctx);
      }
    }
  }

  /** On a template without NUL that does not end in an unpaired `%`, the
      scan as written stays inside the string and renders what Render does. */
  lemma ScanAgreesWithRender(format: string, ctx: Context)
    requires NoNul(format) && !Dangling(format)
    ensures ScanCString(CString(format), 0, ctx) == Some(Render(format, ctx))
  {
    assert format[0..] == format;
    ScanSuffix(format, 0, ctx);
  }

  lemma {:induction false} DanglingSuffix(format: string, i: nat, ctx: Context)
    requires i <= |format| && NoNul(format) && Dangling(format[i..])
    ensures ScanCString(CString(format), i, ctx) == None
    decreases |format| - i
  {
    var rest := format[i..];
    if format[i] != '%' {
      assert rest[1..] == format[i + 1..];
      DanglingSuffix(format, i + 1, ctx);
    } else if i + 1 < |format| {
      assert rest[2..] == format[i + 2..];
      DanglingSuffix(format, i + 2, ctx);
    }
  }

  /** On a template ending in an unpaired `%`, the scan as written steps over
      the terminator and reads past the end of the string. */
  lemma DanglingPercentReadsPastTerminator(format: string, ctx: Context)
    requires NoNul(format) && Dangling(format)
    ensures ScanCString(CString(format), 0, ctx) == None
  {
    assert format[0..] == format;
    DanglingSuffix(format, 0, ctx);
  }

  /** As written, a `%` right before an embedded NUL steps over it and the
      scan goes on copying what follows; the intended rendering stops. */
  lemma PercentSkipsEmbeddedNul(ctx: Context)
    ensures ScanCString(CString(['%', Nul, 'x']), 0, ctx) == Some("%\nx")
    ensures Render(['%', Nul, 'x'], ctx) == "%\n"
  {
    var f := ['%', Nul, 'x'];
    var mem := CString(f);
    assert mem == ['%', Nul, 'x', Nul];
    assert 'x' != Nul && '%' != Nul;
    assert ScanCString(mem, 3, ctx) == Some("");
    assert ScanCString(mem, 2, ctx) == Prepend(['x'], Some(""));
    assert ['x'] + "" == "x";
    assert "%\n" + "x" == "%\nx";
    assert f[0] == '%' && f[1] == Nul && |f| > 1;
  }

  /** A token character is one byte. With the UTF-8 template "%éa" the
      switch takes the lead byte 0xC3 as an unknown token and drops it; the
      continuation byte 0xA9 is then copied as a literal, followed by "a". */
  lemma MultiByteTokenSplits(ctx: Context)
    ensures Render(['%', 0xC3 as char, 0xA9 as char, 'a'], ctx) == [0xA9 as char, 'a']
  {
    var f := ['%', 0xC3 as char, 0xA9 as char, 'a'];
    var lead, cont := 0xC3 as char, 0xA9 as char;
    assert lead != Nul && cont != Nul && cont != '%';
    assert Expand(lead, ctx) == "";
    assert Render(['a'][1..], ctx) == "";
    assert Render(['a'], ctx) == "a";
    assert [cont, 'a'][1..] == ['a'];
    assert Render([cont, 'a'], ctx) == [cont] + "a";
    assert f[2..] == [cont, 'a'];
    assert Render(f, ctx) == "" + Render([cont, 'a'], ctx);
  }
}
