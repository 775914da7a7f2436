/** String helpers shared by the models: `Split` and `Join` behave like JavaScript's
    `text.split(sep)` and `parts.join(sep)` for a non-empty separator. */
module Text {

  function Split(text: string, sep: string): (parts: seq<string>)
    requires sep != ""
    ensures |parts| >= 1
  {
    if |text| < |sep| then [text]
    else if sep <= text then [""] + Split(text[|sep|..], sep)
    else
      var rest := Split(text[1..], sep);
      [[text[0]] + rest[0]] + rest[1..]
  }

  function Join(parts: seq<string>, sep: string): string
    requires |parts| >= 1
  {
    if |parts| == 1 then parts[0] else parts[0] + sep + Join(parts[1..], sep)
  }

  lemma JoinCons(part: string, parts: seq<string>, sep: string)
    requires parts != []
    ensures Join([part] + parts, sep) == part + sep + Join(parts, sep)
  {
    assert ([part] + parts)[1..] == parts;
  }

  lemma JoinOne(part: string, sep: string)
    ensures Join([part], sep) == part
  {
  }

  lemma JoinPrepend(c: char, parts: seq<string>, sep: string)
    requires parts != []
    ensures Join([[c] + parts[0]] + parts[1..], sep) == [c] + Join(parts, sep)
  {
    assert ([[c] + parts[0]] + parts[1..])[1..] == parts[1..];
    if |parts| > 1 {
      var rest := Join(parts[1..], sep);
      hide Join;
      assert ([c] + parts[0]) + sep + rest == [c] + (parts[0] + sep + rest);
    }
  }

  lemma SplitStep(text: string, sep: string)
    requires sep != ""
    ensures |text| < |sep| ==> Split(text, sep) == [text]
    ensures sep <= text ==> Split(text, sep) == [""] + Split(text[|sep|..], sep)
    ensures |text| >= |sep| && !(sep <= text) ==>
              var rest := Split(text[1..], sep);
              Split(text, sep) == [[text[0]] + rest[0]] + rest[1..]
  {
  }

  lemma SameStart(x: string, y: string)
    requires x <= y
    ensures y == x + y[|x|..] == "" + x + y[|x|..]
  {
  }

  /** Joining gives the text back. */
  lemma {:induction false} SplitJoin(text: string, sep: string)
    requires sep != ""
    ensures Join(Split(text, sep), sep) == text
  {
    hide Split;
    SplitStep(text, sep);
    if |text| < |sep| {
    } else if sep <= text {
      hide Join;
      SplitJoin(text[|sep|..], sep);
      JoinCons("", Split(text[|sep|..], sep), sep);
      SameStart(sep, text);
    } else {
      hide Join;
      SplitJoin(text[1..], sep);
      JoinPrepend(text[0], Split(text[1..], sep), sep);
      SameStart([text[0]], text);
    }
  }

  // --- Lines as they are written ----------------------------------------------------

  /** A line and how it ends: in CRLF or in LF. */
  datatype TextLine = TextLine(text: string, crlf: bool)

  /** The line ends where it says. */
  predicate IsLine(line: TextLine) {
    '\n' !in line.text && (line.crlf || line.text == "" || line.text[|line.text| - 1] != '\r')
  }

  function End(crlf: bool): string {
    if crlf then "\r\n" else "\n"
  }

  function Printed(lines: seq<TextLine>): string {
    if lines == [] then "" else lines[0].text + End(lines[0].crlf) + Printed(lines[1..])
  }

  function Texts(lines: seq<TextLine>): (texts: seq<string>)
    ensures |texts| == |lines| && forall i :: 0 <= i < |lines| ==> texts[i] == lines[i].text
  {
    seq(|lines|, i requires 0 <= i < |lines| => lines[i].text)
  }

  lemma PrintedCons(lines: seq<TextLine>, last: string)
    requires lines != []
    ensures Printed(lines) + last == lines[0].text + End(lines[0].crlf) + (Printed(lines[1..]) + last)
  {
    var x, e, r := lines[0].text, End(lines[0].crlf), Printed(lines[1..]);
    assert Printed(lines) == x + e + r;
    hide *;
    RejoinedTail(x, e, r, last);
  }

  lemma RejoinedTail(x: string, e: string, r: string, last: string)
    ensures (x + e + r) + last == x + e + (r + last)
  {
  }

  lemma TextsCons(lines: seq<TextLine>, last: string)
    requires lines != []
    ensures Texts(lines) + [last] == [lines[0].text] + (Texts(lines[1..]) + [last])
  {
  }

  ghost predicate AreLines(lines: seq<TextLine>, last: string) {
    (forall i :: 0 <= i < |lines| ==> IsLine(lines[i])) && '\n' !in last
  }

  /** The line with one more character in front. */
  function Longer(c: char, line: TextLine): TextLine {
    if c == '\r' && line == TextLine("", false) then TextLine("", true) else TextLine([c] + line.text, line.crlf)
  }

  lemma LongerLine(c: char, line: TextLine, rest: string)
    requires c != '\n' && IsLine(line)
    ensures var longer := Longer(c, line);
            IsLine(longer) && longer.text + End(longer.crlf) + rest == [c] + (line.text + End(line.crlf) + rest)
  {
    if c == '\r' && line == TextLine("", false) {
      assert End(true) == [c] + "\n";
    } else {
      assert ([c] + line.text) + End(line.crlf) + rest == [c] + (line.text + End(line.crlf) + rest);
    }
  }

  lemma WithLine(line: TextLine, lines: seq<TextLine>, last: string)
    requires IsLine(line) && AreLines(lines, last)
    ensures AreLines([line] + lines, last)
    ensures Printed([line] + lines) + last == line.text + End(line.crlf) + (Printed(lines) + last)
  {
    PrintedCons([line] + lines, last);
    assert ([line] + lines)[1..] == lines;
  }

  /** Every text is lines, then whatever follows the last one. */
  lemma {:induction false} Dissected(text: string) returns (lines: seq<TextLine>, last: string)
    ensures AreLines(lines, last) && Printed(lines) + last == text
  {
    if text == "" {
      lines, last := [], "";
    } else {
      lines, last := Dissected(text[1..]);
      SameStart([text[0]], text);
      hide Printed;
      if text[0] == '\n' {
        WithLine(TextLine("", false), lines, last);
        lines := [TextLine("", false)] + lines;
      } else if lines == [] {
        NothingPrinted(last);
        last := [text[0]] + last;
        NothingPrinted(last);
      } else {
        var first, rest := lines[0], lines[1..];
        PrintedCons(lines, last);
        LongerLine(text[0], first, Printed(rest) + last);
        hide IsLine;
        WithLine(Longer(text[0], first), rest, last);
        lines := [Longer(text[0], first)] + rest;
      }
    }
  }

  lemma NothingPrinted(last: string)
    ensures Printed([]) + last == last
  {
  }

  /** Splitting at a newline that nothing before it contains. */
  lemma {:induction false} SplitLine(x: string, y: string)
    requires '\n' !in x
    ensures Split(x + "\n" + y, "\n") == [x] + Split(y, "\n")
  {
    var all := x + "\n" + y;
    if x == "" {
      assert all == "\n" + y && all[1..] == y;
    } else {
      SplitLine(x[1..], y);
      assert all[1..] == x[1..] + "\n" + y && all[0] == x[0];
      assert all[0] != "\n"[0];
      assert [x[0]] + x[1..] == x;
    }
  }

  lemma {:induction false} SplitNowhere(x: string)
    requires '\n' !in x
    ensures Split(x, "\n") == [x]
  {
    if x != "" {
      SplitNowhere(x[1..]);
      assert x[0] != "\n"[0] && [x[0]] + x[1..] == x;
    }
  }

  /** All the strings, one after the other. */
  function Concat(parts: seq<string>): string {
    if parts == [] then "" else parts[0] + Concat(parts[1..])
  }

  ghost predicate Contains(text: string, part: string) {
    exists i :: OccursAt(text, part, i)
  }

  predicate OccursAt(text: string, part: string, i: nat) {
    i + |part| <= |text| && text[i..i + |part|] == part
  }

  predicate EndsLine(text: string) {
    text != "" && text[|text| - 1] == '\n'
  }

  lemma {:induction false} ConcatAppend(xs: seq<string>, ys: seq<string>)
    ensures Concat(xs + ys) == Concat(xs) + Concat(ys)
  {
    if xs == [] {
      assert xs + ys == ys;
    } else {
      assert (xs + ys)[1..] == xs[1..] + ys;
      ConcatAppend(xs[1..], ys);
    }
  }

  lemma ConcatSnoc(xs: seq<string>, y: string)
    ensures Concat(xs + [y]) == Concat(xs) + y
  {
    ConcatAppend(xs, [y]);
    assert Concat([y]) == y;
  }

  lemma {:induction false} OccursLater(text: string, part: string, i: nat)
    requires OccursAt(text, part, i) && i > 0
    ensures OccursAt(text[1..], part, i - 1)
  {
    assert text[1..][i - 1..i - 1 + |part|] == text[i..i + |part|];
  }

  lemma ContainsDrop(text: string, part: string, n: nat)
    requires n <= |text| && Contains(text[n..], part)
    ensures Contains(text, part)
  {
    var i: nat :| OccursAt(text[n..], part, i);
    assert text[n..][i..i + |part|] == text[n + i..n + i + |part|];
    assert OccursAt(text, part, n + i);
  }
}
