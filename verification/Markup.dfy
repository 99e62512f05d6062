/**
 * The highlighting markup: `%` switches highlighting, a backslash protects the next special
 * character.  Two clients interpret it, one cell by cell, one with a buffer per highlighted span.
 */
module Markup {
  import opened Text

  /** A drawn character and whether it is highlighted. */
  type Cell = (char, bool)

  function Cells(s: string, lit: bool): (r: seq<Cell>)
    ensures |r| == |s|
  {
    if s == [] then [] else Cells(s[..|s| - 1], lit) + [(s[|s| - 1], lit)]
  }

  /** A protected character; a backslash in front of an ordinary one stays visible. */
  function Protected(c: char, lit: bool): seq<Cell> {
    if IsSpecial(c) then [(c, lit)] else [('\\', lit), (c, lit)]
  }

  /** What a text shows, from a point where highlighting is `lit` and a backslash is `pending`. */
  function Render(s: string, lit: bool, pending: bool): seq<Cell> {
    if s == [] then (if pending then [('\\', lit)] else [])
    else if pending then Protected(s[0], lit) + Render(s[1..], lit, false)
    else if s[0] == '\\' then Render(s[1..], lit, true)
    else if s[0] == COLOR_ESCAPE then Render(s[1..], !lit, false)
    else [(s[0], lit)] + Render(s[1..], lit, false)
  }

  /** One character of a text, read at position `i`. */
  lemma RenderStep(s: string, i: nat, lit: bool, pending: bool)
    requires i < |s|
    ensures Render(s[i..], lit, pending) ==
      if pending then Protected(s[i], lit) + Render(s[i + 1..], lit, false)
      else if s[i] == '\\' then Render(s[i + 1..], lit, true)
      else if s[i] == COLOR_ESCAPE then Render(s[i + 1..], !lit, false)
      else [(s[i], lit)] + Render(s[i + 1..], lit, false)
  {
    assert s[i..][1..] == s[i + 1..];
  }

  /** The text of a zero-terminated buffer. */
  function CString(s: string): string {
    if s == [] || s[0] == '\0' then [] else [s[0]] + CString(s[1..])
  }

  /** The console client: one pass over a zero-terminated string, drawing each character at once. */
  method WinPrintWithHighlight(str: string) returns (window: seq<Cell>)
    requires '\0' in str
    ensures window == Render(CString(str), false, false)
  {
    hide Render;
    window := [];
    var highlightOn := false;
    var backslashFound := false;
    var p := 0;
    ghost var s := CString(str);
    CStringLength(str);
    while str[p] != '\0'
      invariant 0 <= p <= |s| < |str|
      invariant window + Render(s[p..], highlightOn, backslashFound) == Render(s, false, false)
      decreases |s| - p
    {
      var c := str[p];
      ghost var before := window;
      RenderStep(s, p, highlightOn, backslashFound);
      if backslashFound {
        if c != '\\' && c != COLOR_ESCAPE {
          window := window + [('\\', highlightOn)];
        }
        window := window + [(c, highlightOn)];
        assert window == before + Protected(c, highlightOn);
        Associates(before, Protected(c, highlightOn), Render(s[p + 1..], highlightOn, false));
        backslashFound := false;
      } else if c == '\\' {
        backslashFound := true;
      } else if c == COLOR_ESCAPE {
        highlightOn := !highlightOn;
      } else {
        window := window + [(c, highlightOn)];
        Associates(before, [(c, highlightOn)], Render(s[p + 1..], highlightOn, false));
      }
      p := p + 1;
    }
    RenderEnd(highlightOn, backslashFound);
    assert s[p..] == [];
    if backslashFound {
      window := window + [('\\', highlightOn)];
    }
  }

  lemma RenderEnd(lit: bool, pending: bool)
    ensures Render([], lit, pending) == if pending then [('\\', lit)] else []
  {
  }

  lemma {:induction false} CStringLength(str: string)
    requires '\0' in str
    ensures var n := |CString(str)|;
      n < |str| && str[n] == '\0' && CString(str) == str[..n] && '\0' !in str[..n]
  {
    if str[0] != '\0' {
      CStringLength(str[1..]);
      var n := |CString(str[1..])|;
      assert str[..n + 1] == [str[0]] + str[1..][..n];
    }
  }

  /** The web client: highlighted text is collected in a buffer and shown when its span ends. */
  method HighlightString(str: string) returns (res: seq<Cell>)
    ensures res == Render(str, false, false)
  {
    hide Render, Cells, Shown;
    var highlightOn := false;
    var backslashFound := false;
    res := [];
    var highlightBuffer := "";
    assert Shown(res, highlightBuffer, false) == [] by {
      ShownOff(res, highlightBuffer);
    }
    for i := 0 to |str|
      invariant Shown(res, highlightBuffer, highlightOn) + Render(str[i..], highlightOn, backslashFound) ==
        Render(str, false, false)
    {
      var c := str[i];
      ghost var shown := Shown(res, highlightBuffer, highlightOn);
      RenderStep(str, i, highlightOn, backslashFound);
      if backslashFound {
        ghost var rest := Render(str[i + 1..], highlightOn, false);
        if c != '\\' && c != COLOR_ESCAPE {
          ShowOne(res, highlightBuffer, highlightOn, '\\');
          if highlightOn {
            highlightBuffer := highlightBuffer + "\\";
          } else {
            res := res + [('\\', false)];
          }
        }
        ShowOne(res, highlightBuffer, highlightOn, c);
        if highlightOn {
          highlightBuffer := highlightBuffer + [c];
        } else {
          res := res + [(c, false)];
        }
        assert Shown(res, highlightBuffer, highlightOn) == shown + Protected(c, highlightOn);
        Associates(shown, Protected(c, highlightOn), rest);
        backslashFound := false;
      } else if c == '\\' {
        backslashFound := true;
      } else if c == COLOR_ESCAPE {
        ShownToggle(res, highlightBuffer);
        highlightOn := !highlightOn;
        if highlightOn {
          highlightBuffer := "";
        } else {
          res := res + Cells(highlightBuffer, true);
        }
      } else {
        ghost var rest := Render(str[i + 1..], highlightOn, false);
        ShowOne(res, highlightBuffer, highlightOn, c);
        if highlightOn {
          highlightBuffer := highlightBuffer + [c];
        } else {
          res := res + [(c, false)];
        }
        Associates(shown, [(c, highlightOn)], rest);
      }
    }
    assert str[|str|..] == [];
    RenderEnd(highlightOn, backslashFound);
    ShownToggle(res, highlightBuffer);
    if highlightOn {
      res := res + Cells(highlightBuffer, true);
    }
    ShownOff(res, highlightBuffer);
    if backslashFound {
      res := res + [('\\', highlightOn)];
    }
  }

  lemma Associates(a: seq<Cell>, b: seq<Cell>, c: seq<Cell>)
    ensures a + (b + c) == (a + b) + c
  {
  }

  /** What the web client will have shown once its open span ends. */
  function Shown(res: seq<Cell>, highlightBuffer: string, highlightOn: bool): seq<Cell> {
    if highlightOn then res + Cells(highlightBuffer, true) else res
  }

  lemma ShownOff(res: seq<Cell>, buffer: string)
    ensures Shown(res, buffer, false) == res
  {
  }

  /** One character more, in the buffer or outside it. */
  lemma ShowOne(res: seq<Cell>, buffer: string, on: bool, c: char)
    ensures (if on then Shown(res, buffer + [c], true) else Shown(res + [(c, false)], buffer, false)) ==
      Shown(res, buffer, on) + [(c, on)]
  {
    assert (buffer + [c])[..|buffer|] == buffer;
  }

  /** Starting a span with an empty buffer, and ending one by showing its buffer. */
  lemma ShownToggle(res: seq<Cell>, buffer: string)
    ensures Shown(res, "", true) == Shown(res, buffer, false)
    ensures Shown(res + Cells(buffer, true), buffer, false) == Shown(res, buffer, true)
  {
  }

  /** Both clients show a text alike exactly if it has no zero character, where the console's text ends. */
  method ClientsAgree(str: string) returns (console: seq<Cell>, web: seq<Cell>)
    ensures console == web <==> '\0' !in str
  {
    console := WinPrintWithHighlight(str + "\0");
    web := HighlightString(str);
    CStringWhole(str);
    hide Render;
    if '\0' in str {
      ZeroShowsMore(str, false, false);
    }
  }

  lemma {:induction false} CStringWhole(s: string)
    ensures CString(s + "\0") == CString(s)
    ensures '\0' !in s ==> CString(s) == s
  {
    if s != [] {
      CStringWhole(s[1..]);
      assert (s + "\0")[1..] == s[1..] + "\0";
    }
  }

  /** A text that goes on behind a zero shows more than its part in front of it. */
  lemma {:induction false} ZeroShowsMore(s: string, lit: bool, pending: bool)
    requires '\0' in s
    ensures |Render(s, lit, pending)| > |Render(CString(s), lit, pending)|
  {
    if s[0] != '\0' {
      var t := CString(s);
      assert t[0] == s[0] && t[1..] == CString(s[1..]);
      if pending || (s[0] != '\\' && s[0] != COLOR_ESCAPE) {
        ZeroShowsMore(s[1..], lit, false);
      } else if s[0] == '\\' {
        ZeroShowsMore(s[1..], lit, true);
      } else {
        ZeroShowsMore(s[1..], !lit, false);
      }
    }
  }

  // ----- escaping --------------------------------------------------------------------------------

  /** An escaped text shows itself, in the current highlighting, and does not disturb what follows. */
  lemma {:induction false} RenderEscaped(s: string, t: string, lit: bool)
    ensures Render(Escape(s) + t, lit, false) == Cells(s, lit) + Render(t, lit, false)
    decreases |s|
  {
    if s == [] {
      assert Escape(s) + t == t;
    } else {
      var rest := Escape(s[1..]) + t;
      RenderEscaped(s[1..], t, lit);
      CellsFirst(s, lit);
      RenderEscapedChar(s[0], rest, lit);
      assert Escape(s) + t == EscapedChar(s[0]) + rest;
      Associates([(s[0], lit)], Cells(s[1..], lit), Render(t, lit, false));
    }
  }

  function EscapedChar(c: char): string { if IsSpecial(c) then ['\\', c] else [c] }

  lemma RenderEscapedChar(c: char, rest: string, lit: bool)
    ensures Render(EscapedChar(c) + rest, lit, false) == [(c, lit)] + Render(rest, lit, false)
  {
    var text := EscapedChar(c) + rest;
    RenderStep(text, 0, lit, false);
    assert text[0..] == text && text[|EscapedChar(c)|..] == rest;
    if IsSpecial(c) {
      RenderStep(text, 1, lit, true);
    }
  }

  lemma {:induction false} CellsFirst(s: string, lit: bool)
    requires s != []
    ensures Cells(s, lit) == [(s[0], lit)] + Cells(s[1..], lit)
  {
    if |s| > 1 {
      var init := s[..|s| - 1];
      CellsFirst(init, lit);
      assert s[1..][..|s| - 2] == init[1..];
    } else {
      assert s[..0] == [] && s[1..] == [];
    }
  }

  /** A coloured escaped text is highlighted exactly, and highlighting is off again behind it. */
  lemma RenderColored(s: string, t: string)
    ensures Render(ColorThatThing(Escape(s)) + t, false, false) == Cells(s, true) + Render(t, false, false)
  {
    var rest := [COLOR_ESCAPE] + t;
    assert ColorThatThing(Escape(s)) + t == [COLOR_ESCAPE] + (Escape(s) + rest);
    assert ([COLOR_ESCAPE] + (Escape(s) + rest))[1..] == Escape(s) + rest;
    RenderEscaped(s, rest, true);
    assert rest[1..] == t;
  }

  /**
   * What each mark shows in front of a text `t`: a percent sign switches highlighting; behind a
   * backslash, a percent sign or a backslash shows itself, and any other character shows the
   * backslash too; a backslash at the end shows itself.
   */
  lemma MarksShow(c: char, t: string, lit: bool)
    ensures Render("%" + t, lit, false) == Render(t, !lit, false)
    ensures Render("\\%" + t, lit, false) == [('%', lit)] + Render(t, lit, false)
    ensures Render("\\\\" + t, lit, false) == [('\\', lit)] + Render(t, lit, false)
    ensures c != '%' && c != '\\' ==>
      Render(['\\', c] + t, lit, false) == [('\\', lit), (c, lit)] + Render(t, lit, false)
    ensures c != '%' && c != '\\' ==> Render([c] + t, lit, false) == [(c, lit)] + Render(t, lit, false)
    ensures Render("\\", lit, false) == [('\\', lit)]
  {
    assert ("%" + t)[1..] == t && ([c] + t)[1..] == t;
    BackslashShows('%', t, lit);
    BackslashShows('\\', t, lit);
    BackslashShows(c, t, lit);
    assert "\\%" == ['\\', '%'] && "\\\\" == ['\\', '\\'];
    assert "\\"[1..] == "";
    RenderEnd(lit, true);
  }

  lemma BackslashShows(c: char, t: string, lit: bool)
    ensures Render(['\\', c] + t, lit, false) == Protected(c, lit) + Render(t, lit, false)
  {
    var s := ['\\', c] + t;
    RenderStep(s, 0, lit, false);
    RenderStep(s, 1, lit, true);
    assert s[0..] == s && s[2..] == t;
  }
}
