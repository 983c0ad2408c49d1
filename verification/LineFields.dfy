/** How the spider takes a line apart: string.split with a maximum number of splits, and int. */
module LineFields {
  import opened Names
  import opened Wrappers
  import opened Trees
  import opened Text

  /** The text before the first space. */
  function FirstWord(s: string): (r: string)
    requires ' ' in s
    ensures |r| < |s| && s[..|r|] == r && s[|r|] == ' ' && ' ' !in r
  {
    if s[0] == ' ' then [] else [s[0]] + FirstWord(s[1..])
  }

  /** string.split(s, ' ', max): what follows the last split is one field, spaces and all. */
  function Split(s: string, max: nat): seq<string> {
    if max == 0 || ' ' !in s then [s] else [FirstWord(s)] + Split(s[|FirstWord(s)| + 1..], max - 1)
  }

  predicate AllDigits(s: string) {
    s != [] && forall c :: c in s ==> IsDigit(c)
  }

  /** int; None is its exception. */
  function IntOf(s: string): Option<nat> {
    if AllDigits(s) then Some(NumberFrom(0, s)) else None
  }

  /** What the line says, in the spider's words. */
  datatype Said =
    | PathSaid(act: string, id: nat, path: string)
    | EntrySaid(act: string, pid: nat, fid: nat, size: nat, dir: nat, items: nat, name: string)

  /** The front half of scan_line_patch; None is an exception. */
  function TakeApart(line: string): Option<Said> {
    if |line| < 3 then None
    else if line[2] == '0' then
      var f := Split(line, 3);
      if |f| != 4 && |f| != 3 then None
      else
        var id := IntOf(f[2]);
        if id.None? then None else Some(PathSaid(f[0], id.value, if |f| == 4 then f[3] else ""))
    else
      var f := Split(line, 7);
      if |f| != 8 && |f| != 7 then None
      else
        var pid, fid, size, dir, items := IntOf(f[2]), IntOf(f[3]), IntOf(f[4]), IntOf(f[5]), IntOf(f[6]);
        if pid.None? || fid.None? || size.None? || dir.None? || items.None? then None
        else
          Some(EntrySaid(f[0], pid.value, fid.value, size.value, dir.value, items.value, if |f| == 8 then f[7] else ""))
  }

  /** The mark in front of a line. */
  function Sign(act: Act): string {
    match act
    case Plain => ""
    case Add => "+"
    case Del => "-"
    case Mod => "*"
  }

  function SaidBy(line: Line): Said {
    match line
    case PathLine(act, id, path) => PathSaid(Sign(act), id, Join(path))
    case EntryLine(act, pid, fid, size, dir, items, name) =>
      EntrySaid(Sign(act), pid, fid, size, dir, items, name)
  }

  lemma {:induction false} SplitWord(w: string, rest: string, max: nat)
    requires ' ' !in w
    ensures Split(w + " " + rest, max + 1) == [w] + Split(rest, max)
  {
    var s := w + " " + rest;
    assert s[|w|] == ' ';
    FirstWordIs(w, rest);
    assert s[|w| + 1..] == rest;
  }

  lemma {:induction false} FirstWordIs(w: string, rest: string)
    requires ' ' !in w
    ensures ' ' in w + " " + rest && FirstWord(w + " " + rest) == w
    decreases |w|
  {
    var s := w + " " + rest;
    assert s[|w|] == ' ';
    if w != [] {
      assert s[1..] == w[1..] + " " + rest;
      FirstWordIs(w[1..], rest);
    }
  }

  lemma {:induction false} IntOfDecimal(n: nat)
    ensures IntOf(Decimal(n)) == Some(n) && ' ' !in Decimal(n)
  {
    DecimalDigits(n);
    NumberFromDecimal(n, "");
    assert Decimal(n) + "" == Decimal(n);
  }

  /** A field that is a number, and what follows it. */
  lemma {:induction false} SplitNumber(n: nat, rest: string, max: nat)
    ensures Split(Decimal(n) + (" " + rest), max + 1) == [Decimal(n)] + Split(rest, max)
  {
    NoSpaces(n);
    assert Decimal(n) + (" " + rest) == Decimal(n) + " " + rest;
    SplitWord(Decimal(n), rest, max);
  }

  lemma {:induction false} SplitEntry(sign: string, pid: nat, fid: nat, size: nat, dir: nat, items: nat, name: string)
    requires |sign| == 1 && ' ' !in sign
    ensures var line := sign + " " + ("1 " + (Decimal(pid) + Fields(fid, size, dir, items, name)));
            Split(line, 7)
            == [sign, "1", Decimal(pid), Decimal(fid), Decimal(size), Decimal(dir), Decimal(items), name]
  {
    hide Split;
    var t4 := Decimal(items) + (" " + name);
    var t3 := Decimal(dir) + (" " + t4);
    var t2 := Decimal(size) + (" " + t3);
    var t1 := Decimal(fid) + (" " + t2);
    var t0 := Decimal(pid) + (" " + t1);
    assert Decimal(pid) + Fields(fid, size, dir, items, name) == t0;
    SplitWord(sign, "1 " + t0, 6);
    assert "1 " + t0 == "1" + " " + t0;
    SplitWord("1", t0, 5);
    SplitNumber(pid, t1, 4);
    SplitNumber(fid, t2, 3);
    SplitNumber(size, t3, 2);
    SplitNumber(dir, t4, 1);
    SplitNumber(items, name, 0);
    SplitEnd(name);
  }

  lemma SplitEnd(s: string)
    ensures Split(s, 0) == [s]
  {
  }

  lemma {:induction false} SplitPath(sign: string, id: nat, path: string)
    requires |sign| == 1 && ' ' !in sign
    ensures Split(sign + " " + ("0 " + (Decimal(id) + (" " + path))), 3) == [sign, "0", Decimal(id), path]
  {
    hide Split;
    var t := Decimal(id) + (" " + path);
    SplitWord(sign, "0 " + t, 2);
    assert "0 " + t == "0" + " " + t;
    SplitWord("0", t, 1);
    SplitNumber(id, path, 0);
    SplitEnd(path);
  }

  /** A line of a patch is taken apart into the numbers and the name or path it was printed from,
      whatever spaces these have. */
  lemma {:induction false} TakesApartFormat(line: Line)
    requires !line.act.Plain?
    ensures TakeApart(Format(line)) == Some(SaidBy(line))
  {
    hide Split, IntOf, Fields, Decimal, Join;
    var sign := Sign(line.act);
    assert Prefix(line.act) == sign + " ";
    match line
    case PathLine(act, id, path) =>
      var rest := "0 " + (Decimal(id) + (" " + Join(path)));
      assert Format(line) == sign + " " + rest;
      assert Format(line)[2] == rest[0] == '0';
      SplitPath(sign, id, Join(path));
      IntOfDecimal(id);
    case EntryLine(act, pid, fid, size, dir, items, name) =>
      var rest := "1 " + (Decimal(pid) + Fields(fid, size, dir, items, name));
      assert Format(line) == sign + " " + rest;
      assert Format(line)[2] == rest[0] == '1';
      SplitEntry(sign, pid, fid, size, dir, items, name);
      IntOfDecimal(pid);
      IntOfDecimal(fid);
      IntOfDecimal(size);
      IntOfDecimal(dir);
      IntOfDecimal(items);
  }

  /** So is a line of a print, once a plus is put in front of it, as an addition. */
  lemma {:induction false} TakesApartPrint(line: Line)
    requires line.act.Plain?
    ensures TakeApart("+ " + Format(line)) == Some(SaidBy(line.(act := Add)))
  {
    hide Fields, Decimal, Join, TakeApart;
    TakesApartFormat(line.(act := Add));
    assert "+ " + Format(line) == Format(line.(act := Add));
  }
}
