/** The text of a save file: how lines are printed, and how the scanner takes them apart again. */
module Text {
  import opened Names
  import opened Wrappers
  import opened Trees

  // ---------------------------------------------------------------- numbers

  function Digit(d: nat): char
    requires d < 10
  {
    "0123456789"[d]
  }

  predicate IsDigit(c: char) {
    '0' <= c <= '9'
  }

  function ValueOf(c: char): nat
    requires IsDigit(c)
  {
    c as int - '0' as int
  }

  /** printf of %u and %llu */
  function Decimal(n: nat): string {
    if n < 10 then [Digit(n)] else Decimal(n / 10) + [Digit(n % 10)]
  }

  function NumberFrom(acc: nat, s: string): nat
    decreases |s|
  {
    if s != [] && IsDigit(s[0]) then NumberFrom(acc * 10 + ValueOf(s[0]), s[1..]) else acc
  }

  /** sscanf of %u and %llu, and atoi, on text that starts with its digits. */
  function Number(s: string): Option<nat> {
    if s != [] && IsDigit(s[0]) then Some(NumberFrom(0, s)) else None
  }

  lemma DigitValue(d: nat)
    requires d < 10
    ensures IsDigit(Digit(d)) && ValueOf(Digit(d)) == d
  {
  }

  lemma {:induction false} DecimalDigits(n: nat)
    ensures Decimal(n) != [] && forall c :: c in Decimal(n) ==> IsDigit(c)
  {
    if n < 10 {
      DigitValue(n);
    } else {
      DecimalDigits(n / 10);
      DigitValue(n % 10);
    }
  }

  lemma {:induction false} NumberFromDecimal(n: nat, t: string)
    ensures NumberFrom(0, Decimal(n) + t) == NumberFrom(n, t)
  {
    if n < 10 {
      DigitValue(n);
      assert ([Digit(n)] + t)[1..] == t;
    } else {
      DigitValue(n % 10);
      var rest := [Digit(n % 10)] + t;
      NumberFromDecimal(n / 10, rest);
      assert Decimal(n) + t == Decimal(n / 10) + rest;
      assert rest[1..] == t;
    }
  }

  lemma {:induction false} NumberOfDecimal(n: nat, t: string)
    requires t == [] || !IsDigit(t[0])
    ensures Number(Decimal(n) + t) == Some(n)
  {
    DecimalDigits(n);
    NumberFromDecimal(n, t);
    assert (Decimal(n) + t)[0] == Decimal(n)[0] && Decimal(n)[0] in Decimal(n);
  }

  // ---------------------------------------------------------------- fields

  /** What follows the first space: `s = strchr(s, ' '); ++s`. */
  function PastSpace(s: string): Option<string>
    decreases |s|
  {
    if s == [] then None else if s[0] == ' ' then Some(s[1..]) else PastSpace(s[1..])
  }

  lemma {:induction false} PastSpaceAt(s: string, t: string)
    requires ' ' !in s
    ensures PastSpace(s + " " + t) == Some(t)
    decreases |s|
  {
    if s == [] {
      assert s + " " + t == " " + t;
    } else {
      assert (s + " " + t)[1..] == s[1..] + " " + t;
      PastSpaceAt(s[1..], t);
    }
  }

  datatype Field = Field(value: nat, text: string) | NoField

  /** The number after the next space, and the text that starts with it. */
  function NextField(s: string): Field {
    var t := PastSpace(s);
    if t.None? then NoField
    else
      var v := Number(t.value);
      if v.None? then NoField else Field(v.value, t.value)
  }

  lemma {:induction false} NextFieldAt(s: string, n: nat, t: string)
    requires ' ' !in s && t != [] && t[0] == ' '
    ensures NextField(s + " " + (Decimal(n) + t)) == Field(n, Decimal(n) + t)
  {
    PastSpaceAt(s, Decimal(n) + t);
    NumberOfDecimal(n, t);
  }

  lemma {:induction false} NoSpaces(n: nat)
    ensures ' ' !in Decimal(n)
  {
    DecimalDigits(n);
  }

  // ---------------------------------------------------------------- lines

  function Prefix(act: Act): string {
    match act
    case Plain => ""
    case Add => "+ "
    case Del => "- "
    case Mod => "* "
  }

  /** The fields of an entry from the second on. */
  function Fields(fid: nat, size: nat, dir: nat, items: nat, name: string): string {
    " " + (Decimal(fid) + (" " + (Decimal(size) + (" " + (Decimal(dir) + (" " + (Decimal(items) + (" " + name))))))))
  }

  /** dt_printdir_reverse and dt_printfile_reverse */
  function Format(line: Line): string {
    Prefix(line.act) +
    match line
    case PathLine(_, id, path) => "0 " + (Decimal(id) + (" " + Join(path)))
    case EntryLine(_, pid, fid, size, dir, items, name) => "1 " + (Decimal(pid) + Fields(fid, size, dir, items, name))
  }

  /** What dtread_readline makes of a line before it looks at its tables. */
  datatype Told = Opens(id: nat) | Entry(pid: nat, fid: nat, size: nat, dir: nat, items: nat,
                                         name: string) | Skipped | Malformed

  function Tell(s: string): Told {
    if s == [] then Malformed
    else if s[0] == '0' then
      if |s| < 2 || Number(s[2..]).None? || Number(s[2..]).value == 0 then Malformed else Opens(Number(s[2..]).value)
    else if s[0] == '1' then TellEntry(s)
    else if s[0] == '+' || s[0] == '-' || s[0] == '*' then Skipped
    else Malformed
  }

  function TellEntry(s: string): Told {
    var pid := NextField(s);
    if pid.NoField? then Malformed
    else
      var fid := NextField(pid.text);
      if fid.NoField? then Malformed
      else
        var size := NextField(fid.text);
        if size.NoField? then Malformed
        else
          var dir := NextField(size.text);
          if dir.NoField? then Malformed
          else
            var items := NextField(dir.text);
            if items.NoField? then Malformed
            else
              var name := PastSpace(items.text);
              if name.None? then Malformed
              else Entry(pid.value, fid.value, size.value, dir.value, items.value, name.value)
  }

  /** What should be made of it. */
  function Meaning(line: Line): Told {
    if !line.act.Plain? then Skipped
    else if line.PathLine? then if line.id == 0 then Malformed else Opens(line.id)
    else Entry(line.pid, line.fid, line.size, line.dir, line.items, line.name)
  }

  lemma {:induction false} TellsPositive(line: string)
    ensures Tell(line).Opens? ==> Tell(line).id > 0
  {
    hide TellEntry;
    TellsEntryOnly(line);
  }

  lemma TellsEntryOnly(s: string)
    ensures !TellEntry(s).Opens?
  {
  }

  lemma {:induction false} TellsEntry(pid: nat, fid: nat, size: nat, dir: nat, items: nat, name: string)
    ensures TellEntry("1 " + (Decimal(pid) + Fields(fid, size, dir, items, name)))
         == Entry(pid, fid, size, dir, items, name)
  {
    var t5 := " " + name;
    var t4 := " " + (Decimal(items) + t5);
    var t3 := " " + (Decimal(dir) + t4);
    var t2 := " " + (Decimal(size) + t3);
    var t1 := " " + (Decimal(fid) + t2);
    NoSpaces(pid);
    NoSpaces(fid);
    NoSpaces(size);
    NoSpaces(dir);
    NoSpaces(items);
    assert "1 " + (Decimal(pid) + t1) == "1" + " " + (Decimal(pid) + t1);
    NextFieldAt("1", pid, t1);
    FieldAfter(pid, fid, t2);
    FieldAfter(fid, size, t3);
    FieldAfter(size, dir, t4);
    FieldAfter(dir, items, t5);
    PastSpaceAt(Decimal(items), name);
    assert Decimal(items) + t5 == Decimal(items) + " " + name;
  }

  lemma {:induction false} FieldAfter(m: nat, n: nat, t: string)
    requires t != [] && t[0] == ' '
    ensures NextField(Decimal(m) + (" " + (Decimal(n) + t))) == Field(n, Decimal(n) + t)
  {
    NoSpaces(m);
    assert Decimal(m) + (" " + (Decimal(n) + t)) == Decimal(m) + " " + (Decimal(n) + t);
    NextFieldAt(Decimal(m), n, t);
  }

  /** A printed line is taken apart into the numbers and the name it was printed from, whatever
      spaces the name has. */
  lemma {:induction false} TellsFormat(line: Line)
    ensures Tell(Format(line)) == Meaning(line)
  {
    if line.act.Plain? {
      if line.PathLine? {
        NumberOfDecimal(line.id, " " + Join(line.path));
        var s := "0 " + (Decimal(line.id) + (" " + Join(line.path)));
        assert Format(line) == s;
        assert s[2..] == Decimal(line.id) + (" " + Join(line.path));
      } else {
        var s := "1 " + (Decimal(line.pid) + Fields(line.fid, line.size, line.dir, line.items, line.name));
        assert Format(line) == s;
        TellsEntry(line.pid, line.fid, line.size, line.dir, line.items, line.name);
      }
    } else {
      assert Format(line)[0] == Prefix(line.act)[0];
    }
  }

  // ---------------------------------------------------------------- files

  /** The lines of a file; what follows the last newline is not a line. */
  function LinesOf(text: string): seq<string>
    decreases |text|
  {
    if '\n' !in text then [] else [FirstLine(text)] + LinesOf(text[|FirstLine(text)| + 1..])
  }

  function FirstLine(text: string): (r: string)
    requires '\n' in text
    ensures |r| < |text| && text[..|r|] == r && text[|r|] == '\n' && '\n' !in r
    decreases |text|
  {
    if text[0] == '\n' then [] else [text[0]] + FirstLine(text[1..])
  }

  function Unlines(lines: seq<string>): string {
    if lines == [] then [] else lines[0] + "\n" + Unlines(lines[1..])
  }

  /** The text that a walk prints. */
  function Printout(lines: seq<Line>): seq<string> {
    if lines == [] then [] else [Format(lines[0])] + Printout(lines[1..])
  }

  lemma {:induction false} FirstLineIs(s: string, t: string)
    requires '\n' !in s
    ensures FirstLine(s + "\n" + t) == s
    decreases |s|
  {
    var text := s + "\n" + t;
    assert text[|s|] == '\n';
    if s != [] {
      FirstLineIs(s[1..], t);
      assert text[1..] == s[1..] + "\n" + t;
      assert text[0] == s[0];
    }
  }

  /** Cutting a file into lines undoes printing them. */
  lemma {:induction false} LinesOfUnlines(lines: seq<string>)
    requires forall s :: s in lines ==> '\n' !in s
    ensures LinesOf(Unlines(lines)) == lines
    decreases |lines|
  {
    if lines != [] {
      var t := Unlines(lines[1..]);
      var text := lines[0] + "\n" + t;
      assert lines[0] in lines;
      assert text[|lines[0]|] == '\n';
      FirstLineIs(lines[0], t);
      assert text[|lines[0]| + 1..] == t;
      LinesOfUnlines(lines[1..]);
    }
  }

  // ---------------------------------------------------------------- printable lines

  predicate OneLine(line: Line) {
    if line.PathLine? then forall name :: name in line.path ==> '\n' !in name else '\n' !in line.name
  }

  lemma {:induction false} JoinOneLine(path: Path)
    requires forall name :: name in path ==> '\n' !in name
    ensures '\n' !in Join(path)
    decreases |path|
  {
    if |path| == 1 {
      assert path[0] in path;
    } else if |path| > 1 {
      assert path[|path| - 1] in path;
      JoinOneLine(path[..|path| - 1]);
    }
  }

  lemma {:induction false} FormatOneLine(line: Line)
    requires OneLine(line)
    ensures '\n' !in Format(line)
  {
    if line.PathLine? {
      DecimalDigits(line.id);
      JoinOneLine(line.path);
    } else {
      DecimalDigits(line.pid);
      DecimalDigits(line.fid);
      DecimalDigits(line.size);
      DecimalDigits(line.dir);
      DecimalDigits(line.items);
    }
  }

  lemma {:induction false} PrintoutOneLine(lines: seq<Line>)
    requires forall line :: line in lines ==> OneLine(line)
    ensures |Printout(lines)| == |lines| && forall i :: 0 <= i < |lines| ==> Printout(lines)[i] == Format(lines[i])
    ensures forall s :: s in Printout(lines) ==> '\n' !in s
    decreases |lines|
  {
    if lines != [] {
      assert lines[0] in lines;
      FormatOneLine(lines[0]);
      PrintoutOneLine(lines[1..]);
    }
  }
}
