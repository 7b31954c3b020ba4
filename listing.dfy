/**
 * The parser for the output of `cbsd bls header=0 display=jname,jid,vm_ram,
 * vm_cpus,vm_os_type,status,vnc_port`, written twice in main.go (in
 * HandleBhyveList and in HandleInitBhyveList) and stated once here.
 *
 * The text is split on "\n"; a line of at most two bytes is dropped; every
 * run of two or more characters of the class [\s\p{Zs}] becomes one space;
 * the line is split on single spaces; fields 0 to 6 fill a record, with
 * fields 1 to 3 read by strconv.Atoi.  Fewer than seven fields is an index
 * out of range in Go: here ParseLine gives None and the parse of the whole
 * listing stops at that line, as the Go loop does when it panics.
 */
module Listing {
  import opened Wrappers
  import opened GoText

  /** One virtual machine as `cbsd bls` reports it (the Go type Bhyves). */
  datatype Bhyves = Bhyves(
    jName: string,
    jid: int,
    vmRam: int,   // megabytes
    vmCpus: int,
    vmOsType: string,
    status: string,
    vnc: string)

  // ---------------------------------------------------------------------
  // The column padding: regexp `[\s\p{Zs}]{2,}` replaced by " "
  // ---------------------------------------------------------------------

  /** The class [\s\p{Zs}]: RE2's \s is [\t\n\f\r ], \p{Zs} the Unicode space separators. */
  predicate IsPadChar(c: char) {
    || c == '\t' || c == '\n' || c == '\U{0C}' || c == '\r' || c == ' '
    || c == '\U{A0}' || c == '\U{1680}' || ('\U{2000}' <= c <= '\U{200A}')
    || c == '\U{202F}' || c == '\U{205F}' || c == '\U{3000}'
  }

  /** No two characters of the class stand next to each other. */
  predicate NoDoublePad(s: string) {
    forall i :: 0 <= i < |s| - 1 ==> !IsPadChar(s[i]) || !IsPadChar(s[i + 1])
  }

  /** Length of the run of class characters at the front of `s`. */
  function PadRun(s: string): (k: nat)
    ensures k <= |s|
    ensures forall j :: 0 <= j < k ==> IsPadChar(s[j])
    ensures k < |s| ==> !IsPadChar(s[k])
  {
    if s == [] || !IsPadChar(s[0]) then 0 else 1 + PadRun(s[1..])
  }

  /**
   * ReplaceAllString(s, " ") for the pattern [\s\p{Zs}]{2,}: every maximal
   * run of two or more class characters becomes one space; a lone class
   * character (a single tab, a trailing "\r") is kept as it is.
   */
  function Collapse(s: string): (r: string)
    ensures |r| == 0 <==> |s| == 0
    ensures |s| > 0 ==> (IsPadChar(r[0]) <==> IsPadChar(s[0]))
    ensures NoDoublePad(r)
    decreases |s|
  {
    if s == [] then []
    else
      var k := PadRun(s);
      if k >= 2 then " " + Collapse(s[k..]) else [s[0]] + Collapse(s[1..])
  }

  /** Text with no two adjacent class characters is left as it is. */
  lemma {:induction false} CollapseIdentity(s: string)
    requires NoDoublePad(s)
    ensures Collapse(s) == s
    decreases |s|
  {
    if s != [] {
      assert PadRun(s) < 2 by {
        if |s| >= 2 { assert !IsPadChar(s[0]) || !IsPadChar(s[1]); }
      }
      assert NoDoublePad(s[1..]) by {
        forall i | 0 <= i < |s[1..]| - 1
          ensures !IsPadChar(s[1..][i]) || !IsPadChar(s[1..][i + 1])
        {
          assert s[1..][i] == s[i + 1] && s[1..][i + 1] == s[i + 2];
        }
      }
      CollapseIdentity(s[1..]);
    }
  }

  /** Collapsing twice is collapsing once. */
  lemma CollapseIdempotent(s: string)
    ensures Collapse(Collapse(s)) == Collapse(s)
  {
    CollapseIdentity(Collapse(s));
  }

  /** The characters outside the class, in order. */
  function Visible(s: string): string {
    if s == [] then [] else (if IsPadChar(s[0]) then [] else [s[0]]) + Visible(s[1..])
  }

  lemma {:induction false} VisibleSkipsPad(s: string, k: nat)
    requires k <= |s|
    requires forall j :: 0 <= j < k ==> IsPadChar(s[j])
    ensures Visible(s) == Visible(s[k..])
    decreases k
  {
    if k > 0 {
      VisibleSkipsPad(s[1..], k - 1);
      assert s[1..][k - 1..] == s[k..];
    }
  }

  /** Collapsing rewrites padding only: every other character survives, in order. */
  lemma {:induction false} CollapseKeepsVisible(s: string)
    ensures Visible(Collapse(s)) == Visible(s)
    decreases |s|
  {
    if s != [] {
      var k := PadRun(s);
      if k >= 2 {
        var r := " " + Collapse(s[k..]);
        assert r[1..] == Collapse(s[k..]);
        CollapseKeepsVisible(s[k..]);
        VisibleSkipsPad(s, k);
      } else {
        var r := [s[0]] + Collapse(s[1..]);
        assert r[1..] == Collapse(s[1..]);
        CollapseKeepsVisible(s[1..]);
      }
    }
  }

  // ---------------------------------------------------------------------
  // One line
  // ---------------------------------------------------------------------

  /**
   * The record for one retained line, or None where Go indexes past the
   * end of strings.Split(n, " ") because the line has fewer than seven fields.
   */
  function ParseLine(line: string): (r: Option<Bhyves>)
    ensures r.None? <==> |Split(Collapse(line), ' ')| < 7
    ensures r.Some? ==>
              && ' ' !in r.value.jName && ' ' !in r.value.vmOsType
              && ' ' !in r.value.status && ' ' !in r.value.vnc
    ensures r.Some? ==>
              && MinInt64 <= r.value.jid <= MaxInt64
              && MinInt64 <= r.value.vmRam <= MaxInt64
              && MinInt64 <= r.value.vmCpus <= MaxInt64
  {
    var f := Split(Collapse(line), ' ');
    if |f| < 7 then None
    else Some(Bhyves(f[0], Atoi(f[1]), Atoi(f[2]), Atoi(f[3]), f[4], f[5], f[6]))
  }

  /** A column separator as the tool may print it: one space, or a run of two or more class characters. */
  predicate IsPad(p: string) {
    p == " " || (|p| >= 2 && forall j :: 0 <= j < |p| ==> IsPadChar(p[j]))
  }

  /** A column value: non-empty, with no class character inside. */
  predicate IsCell(f: string) {
    f != [] && forall j :: 0 <= j < |f| ==> !IsPadChar(f[j])
  }

  /** The fields laid out with the given separators between them. */
  function Columns(fields: seq<string>, pads: seq<string>): string
    requires |fields| == |pads| + 1
  {
    if |pads| == 0 then fields[0] else fields[0] + pads[0] + Columns(fields[1..], pads[1..])
  }

  lemma {:induction false} CollapseCell(f: string, rest: string)
    requires forall j :: 0 <= j < |f| ==> !IsPadChar(f[j])
    ensures Collapse(f + rest) == f + Collapse(rest)
    decreases |f|
  {
    if f == [] {
      assert f + rest == rest;
    } else {
      assert (f + rest)[1..] == f[1..] + rest;
      CollapseCell(f[1..], rest);
    }
  }

  lemma CollapsePad(p: string, rest: string)
    requires IsPad(p)
    requires rest != [] && !IsPadChar(rest[0])
    ensures Collapse(p + rest) == " " + Collapse(rest)
  {
    var s := p + rest;
    assert s[|p|] == rest[0];
    if p == " " {
      assert PadRun(s) == 1 by { assert s[1] == rest[0]; }
      assert s[1..] == rest;
    } else {
      forall j | 0 <= j < |p| ensures IsPadChar(s[j]) {
        assert s[j] == p[j];
      }
      assert PadRun(s) == |p|;
      assert s[|p|..] == rest;
    }
  }

  /** Padded columns collapse to the fields joined by single spaces. */
  lemma {:induction false} CollapseColumns(fields: seq<string>, pads: seq<string>)
    requires |fields| == |pads| + 1
    requires forall i :: 0 <= i < |fields| ==> IsCell(fields[i])
    requires forall i :: 0 <= i < |pads| ==> IsPad(pads[i])
    ensures Collapse(Columns(fields, pads)) == Join(fields, ' ')
    decreases |pads|
  {
    if |pads| == 0 {
      CollapseCell(fields[0], []);
      assert fields[0] + [] == fields[0];
    } else {
      var f, p := fields[0], pads[0];
      var rest := Columns(fields[1..], pads[1..]);
      assert rest[0] == fields[1][0] by { ColumnsStart(fields[1..], pads[1..]); }
      calc {
        Collapse(Columns(fields, pads));
        Collapse(f + p + rest);
        { ConcatAssoc(f, p, rest); }
        Collapse(f + (p + rest));
        { CollapseCell(f, p + rest); }
        f + Collapse(p + rest);
        { CollapsePad(p, rest); }
        f + (" " + Collapse(rest));
        { CollapseColumns(fields[1..], pads[1..]); }
        f + (" " + Join(fields[1..], ' '));
        { ConcatAssoc(f, " ", Join(fields[1..], ' ')); }
        Join(fields, ' ');
      }
    }
  }

  lemma ColumnsStart(fields: seq<string>, pads: seq<string>)
    requires |fields| == |pads| + 1
    requires IsCell(fields[0])
    ensures |Columns(fields, pads)| > 0 && Columns(fields, pads)[0] == fields[0][0]
  {
  }

  /**
   * A line printed as padded columns parses to the record of its first
   * seven fields (later fields are ignored), and to nothing when it has
   * fewer than seven.
   */
  lemma ParseColumns(fields: seq<string>, pads: seq<string>)
    requires |fields| == |pads| + 1
    requires forall i :: 0 <= i < |fields| ==> IsCell(fields[i])
    requires forall i :: 0 <= i < |pads| ==> IsPad(pads[i])
    ensures ParseLine(Columns(fields, pads)) ==
      if |fields| < 7 then None
      else Some(Bhyves(fields[0], Atoi(fields[1]), Atoi(fields[2]), Atoi(fields[3]),
                       fields[4], fields[5], fields[6]))
  {
    CollapseColumns(fields, pads);
    SplitJoin(fields, ' ');
  }

  /** Two or more pad characters at the start of a line leave an empty first field: the name is "". */
  lemma LeadingPadEmptyName(line: string)
    requires PadRun(line) >= 2
    ensures ParseLine(line).Some? ==> ParseLine(line).value.jName == ""
  {
    var n := Collapse(line);
    assert n[0] == ' ';
    assert IndexOf(n, ' ') == 0;
  }

  // ---------------------------------------------------------------------
  // The whole listing
  // ---------------------------------------------------------------------

  /** `len(line) > 2`: Go counts bytes, so the line must be longer than two bytes. */
  function Retained(line: string): (r: bool)
    ensures |line| > 2 ==> r
    ensures r ==> |line| >= 1
    ensures (forall i :: 0 <= i < |line| ==> line[i] as int < 0x80) ==> (r <==> |line| > 2)
  {
    Utf8Len(line) > 2
  }

  /** The lines the parser looks at, in input order. */
  function Kept(lines: seq<string>): (k: seq<string>)
    ensures |k| <= |lines|
    ensures forall i :: 0 <= i < |k| ==> Retained(k[i]) && k[i] in lines
  {
    if lines == [] then []
    else
      var last := lines[|lines| - 1];
      Kept(lines[..|lines| - 1]) + (if Retained(last) then [last] else [])
  }

  lemma {:induction false} KeptAppend(a: seq<string>, b: seq<string>)
    ensures Kept(a + b) == Kept(a) + Kept(b)
    decreases |b|
  {
    if b == [] {
      assert a + b == a;
    } else {
      var ab, b' := a + b, b[..|b| - 1];
      var x := b[|b| - 1];
      var tail := if Retained(x) then [x] else [];
      assert ab[..|ab| - 1] == a + b' && ab[|ab| - 1] == x;
      assert Kept(ab) == Kept(a + b') + tail;
      assert Kept(b) == Kept(b') + tail;
      KeptAppend(a, b');
      ConcatAssoc(Kept(a), Kept(b'), tail);
    }
  }

  /** Every line longer than two bytes is kept. */
  lemma {:induction false} KeptHasRetained(lines: seq<string>, i: nat)
    requires i < |lines| && Retained(lines[i])
    ensures lines[i] in Kept(lines)
    decreases |lines|
  {
    if i < |lines| - 1 {
      KeptHasRetained(lines[..|lines| - 1], i);
    }
  }

  /** The records read before the first bad line, and whether there was none. */
  datatype ParseOutcome = ParseOutcome(records: seq<Bhyves>, complete: bool)

  /** The Go loop over the lines, as a function: it stops at the first retained line it cannot index. */
  function ParseLines(lines: seq<string>): (r: ParseOutcome)
    ensures r.complete <==> |r.records| == |Kept(lines)|
    ensures |r.records| <= |Kept(lines)|
  {
    if lines == [] then ParseOutcome([], true)
    else
      var before := ParseLines(lines[..|lines| - 1]);
      var line := lines[|lines| - 1];
      if !before.complete || !Retained(line) then before
      else match ParseLine(line)
        case Some(b) => ParseOutcome(before.records + [b], true)
        case None => ParseOutcome(before.records, false)
  }

  /**
   * What the parser yields: one record per kept line, in order, each the
   * record of its line, up to the first kept line that has fewer than seven
   * fields; the parse is complete exactly when there is no such line.
   */
  lemma {:induction false} ParseLinesRecords(lines: seq<string>)
    ensures var p, k := ParseLines(lines), Kept(lines);
      && |p.records| <= |k|
      && (forall i :: 0 <= i < |p.records| ==> ParseLine(k[i]) == Some(p.records[i]))
      && (p.complete <==> |p.records| == |k|)
      && (!p.complete ==> ParseLine(k[|p.records|]).None?)
    decreases |lines|
  {
    if lines != [] {
      ParseLinesRecords(lines[..|lines| - 1]);
    }
  }

  /** The parse is complete exactly when every kept line has at least seven fields. */
  lemma ParseLinesComplete(lines: seq<string>)
    ensures ParseLines(lines).complete <==>
      forall i :: 0 <= i < |Kept(lines)| ==> ParseLine(Kept(lines)[i]).Some?
  {
    ParseLinesRecords(lines);
  }

  /** One more line, while the parse is still complete: skipped, appended, or the stop. */
  lemma ParseLinesNext(lines: seq<string>, i: nat)
    requires i < |lines| && ParseLines(lines[..i]).complete
    ensures var before, line := ParseLines(lines[..i]), lines[i];
      ParseLines(lines[..i + 1]) ==
        if !Retained(line) then before
        else if ParseLine(line).Some? then ParseOutcome(before.records + [ParseLine(line).value], true)
        else ParseOutcome(before.records, false)
  {
    assert lines[..i + 1][..i] == lines[..i];
  }

  /** Once a bad line has stopped the parse, later lines change nothing. */
  lemma {:induction false} ParseLinesStopped(lines: seq<string>, j: nat)
    requires j <= |lines|
    requires !ParseLines(lines[..j]).complete
    ensures ParseLines(lines) == ParseLines(lines[..j])
    decreases |lines| - j
  {
    if j < |lines| {
      var m := lines[..|lines| - 1];
      assert m[..j] == lines[..j];
      ParseLinesStopped(m, j);
    } else {
      assert lines[..j] == lines;
    }
  }

  // ---------------------------------------------------------------------
  // Examples
  // ---------------------------------------------------------------------

  const SampleFields := ["vm1", "101", "512", "2", "freebsd", "Running", "5900"]
  const SampleRecord := Bhyves("vm1", 101, 512, 2, "freebsd", "Running", "5900")

  /** The sample row, its columns separated by the padding `p` (such as "   "). */
  function SampleLine(p: string): string {
    Columns(SampleFields, [p, p, p, p, p, p])
  }

  /** Whatever the column padding, the sample row parses to the record its columns describe. */
  lemma SampleLineRecord(p: string)
    requires IsPad(p)
    ensures ParseLine(SampleLine(p)) == Some(SampleRecord)
  {
    SampleCells();
    ParseColumns(SampleFields, [p, p, p, p, p, p]);
    SampleNumbers();
  }

  lemma SampleCells()
    ensures forall i :: 0 <= i < |SampleFields| ==> IsCell(SampleFields[i])
  {
  }

  lemma SampleNumbers()
    ensures Atoi("101") == 101 && Atoi("512") == 512 && Atoi("2") == 2
  {
    AtoiDecimal(101);
    AtoiDecimal(512);
    AtoiDecimal(2);
    assert Decimal(101) == "101" && Decimal(512) == "512" && Decimal(2) == "2";
  }

  /** Short lines are noise: of "", "x" and the sample row only the sample row yields a record. */
  lemma ShortLinesSkipped(p: string)
    requires IsPad(p)
    ensures ParseLines(["", "x", SampleLine(p)]) == ParseOutcome([SampleRecord], true)
  {
    SampleLineRecord(p);
    SampleLineLength(p);
    ShortLinesBefore(SampleLine(p), SampleRecord);
  }

  lemma ShortLinesBefore(line: string, b: Bhyves)
    requires |line| > 2 && ParseLine(line) == Some(b)
    ensures ParseLines(["", "x", line]) == ParseOutcome([b], true)
  {
    var lines := ["", "x", line];
    assert lines[..2] == ["", "x"] && lines[2] == line;
    ShortLinesNothing();
    ParseLinesNext(lines, 2);
    assert lines[..3] == lines;
  }

  lemma ShortLinesNothing()
    ensures ParseLines(["", "x"]) == ParseOutcome([], true)
  {
    var lines := ["", "x"];
    assert lines[..0] == [] && lines[0] == "" && lines[1] == "x";
    assert !Retained("");
    ParseLinesNext(lines, 0);
    assert Utf8Len("x") == 1;
    ParseLinesNext(lines, 1);
    assert lines[..2] == lines;
  }

  lemma SampleLineLength(p: string)
    ensures |SampleLine(p)| > 2
  {
    var fs, ps := SampleFields, [p, p, p, p, p, p];
    assert |Columns(fs, ps)| >= |fs[0]| + |Columns(fs[1..], ps[1..])|;
  }

  /** The sample listing, ending in a newline, yields exactly the one record. */
  lemma SampleListing(p: string)
    requires IsPad(p)
    requires '\n' !in p
    ensures ParseLines(Split(SampleLine(p) + "\n", '\n')) == ParseOutcome([SampleRecord], true)
  {
    SampleLineRecord(p);
    var line := SampleLine(p);
    assert '\n' !in line by { ColumnsAvoid(SampleFields, [p, p, p, p, p, p], '\n'); }
    SplitJoin([line, ""], '\n');
    assert Join([line, ""], '\n') == line + "\n";
    var lines := [line, ""];
    assert ParseLines([line]) == ParseOutcome([SampleRecord], true) by {
      assert [line][..0] == [];
      assert Retained(line) by { SampleLineLength(p); }
    }
    assert lines[..1] == [line];
    assert !Retained("");
  }

  lemma {:induction false} ColumnsAvoid(fields: seq<string>, pads: seq<string>, c: char)
    requires |fields| == |pads| + 1
    requires forall i :: 0 <= i < |fields| ==> c !in fields[i]
    requires forall i :: 0 <= i < |pads| ==> c !in pads[i]
    ensures c !in Columns(fields, pads)
    decreases |pads|
  {
    if |pads| > 0 {
      ColumnsAvoid(fields[1..], pads[1..], c);
    }
  }
}
