/**
 * The commands capi hands to exec.Command: the three lifecycle verbs, and
 * the create path, which re-tokenizes the command line it built before
 * running it.  (The listing command is described with the listing handlers.)
 */

module Dispatch {
  import opened Wrappers
  import opened GoText
  import opened Create

  /** A program and its argument vector, as exec.Command receives them. */
  datatype Command = Command(program: string, args: seq<string>)

  // ---------------------------------------------------------------------
  // start, stop, remove
  // ---------------------------------------------------------------------

  datatype Lifecycle = Start | Stop | Remove

  /** The cbsd verb of each lifecycle operation. */
  function Verb(op: Lifecycle): string {
    match op
    case Start => "bstart"
    case Stop => "bstop"
    case Remove => "bremove"
  }

  /**
   * realInstanceStart / Stop / Remove: the id from the request path goes,
   * prefixed by `jname=`, into one argument of its own; the request body
   * plays no part.
   */
  function LifecycleCommand(op: Lifecycle, id: string): (c: Command)
    ensures c.program == "env" && |c.args| == 5
    ensures c.args[..4] == ["NOCOLOR=0", "cbsd", Verb(op), "inter=0"]
    ensures |c.args[4]| == 6 + |id| && c.args[4][..6] == "jname=" && c.args[4][6..] == id
  {
    Command("env", ["NOCOLOR=0", "cbsd", Verb(op), "inter=0", "jname=" + id])
  }

  /** Reads an argument vector back as a lifecycle operation on an instance. */
  function ParseLifecycle(c: Command): (r: Option<(Lifecycle, string)>)
    ensures r.Some? ==> |c.args| == 5 && c.args[4] == "jname=" + r.value.1
  {
    if c.program == "env" && |c.args| == 5 && c.args[0] == "NOCOLOR=0" && c.args[1] == "cbsd"
      && c.args[3] == "inter=0" && |c.args[4]| >= 6 && c.args[4][..6] == "jname="
    then
      var id := c.args[4][6..];
      assert c.args[4] == "jname=" + id;
      if c.args[2] == "bstart" then Some((Start, id))
      else if c.args[2] == "bstop" then Some((Stop, id))
      else if c.args[2] == "bremove" then Some((Remove, id))
      else None
    else None
  }

  /** Every lifecycle command reads back as the operation and the id it was built from, whatever the id holds. */
  lemma LifecycleRoundTrip(op: Lifecycle, id: string)
    ensures ParseLifecycle(LifecycleCommand(op, id)) == Some((op, id))
  {
    var arg := "jname=" + id;
    assert arg[..6] == "jname=" && arg[6..] == id;
  }

  /** Whatever reads back as an operation on an id is exactly the command built for them. */
  lemma ParseLifecycleExact(c: Command)
    requires ParseLifecycle(c).Some?
    ensures c == LifecycleCommand(ParseLifecycle(c).value.0, ParseLifecycle(c).value.1)
  {
    var r := ParseLifecycle(c).value;
    assert c.args == ["NOCOLOR=0", "cbsd", Verb(r.0), "inter=0", "jname=" + r.1];
  }

  /** Distinct operations or ids never give the same command. */
  lemma LifecycleInjective(op1: Lifecycle, id1: string, op2: Lifecycle, id2: string)
    requires LifecycleCommand(op1, id1) == LifecycleCommand(op2, id2)
    ensures op1 == op2 && id1 == id2
  {
    LifecycleRoundTrip(op1, id1);
    LifecycleRoundTrip(op2, id2);
  }

  // ---------------------------------------------------------------------
  // create: the command line is split again before it runs
  // ---------------------------------------------------------------------

  /**
   * realInstanceCreate: drop one trailing newline, split on white space,
   * run the first word with the others as arguments. A line with no word
   * at all makes the Go code index an empty slice and panic: None.
   */
  function CreateInvocation(line: string): (r: Option<Command>)
    ensures r.None? <==> Fields(TrimSuffix(line, "\n")) == []
    ensures r.Some? ==> [r.value.program] + r.value.args == Fields(TrimSuffix(line, "\n"))
    ensures r.Some? ==> IsWord(r.value.program) && forall i :: 0 <= i < |r.value.args| ==> IsWord(r.value.args[i])
  {
    var words := Fields(TrimSuffix(line, "\n"));
    if words == [] then None
    else
      assert words == [words[0]] + words[1..];
      Some(Command(words[0], words[1..]))
  }

  /** One argument as the create path passes it to cbsd: `key=value`. */
  function Token(p: Param): string {
    p.key + "=" + p.value
  }

  function Tokens(es: seq<Param>): (ts: seq<string>)
    ensures |ts| == |es|
  {
    if es == [] then [] else Tokens(es[..|es| - 1]) + [Token(es[|es| - 1])]
  }

  /** A value that white space does not break apart. */
  predicate Unbroken(v: string) {
    forall j :: 0 <= j < |v| ==> !IsSpace(v[j])
  }

  /** The chunks the builder writes are the tokens, each followed by one space. */
  lemma {:induction false} RenderSpaced(es: seq<Param>)
    ensures Render(es) == Spaced(Tokens(es))
    decreases |es|
  {
    if es != [] {
      var n := |es| - 1;
      RenderSpaced(es[..n]);
      SpacedAppend(Tokens(es[..n]), [Token(es[n])]);
      assert Spaced([Token(es[n])]) == Chunk(es[n]) by {
        assert [Token(es[n])][1..] == [];
      }
    }
  }

  lemma TokenWord(p: Param)
    requires Unbroken(p.value)
    ensures IsWord(Token(p))
  {
    var t := Token(p);
    forall j | 0 <= j < |t|
      ensures !IsSpace(t[j])
    {
      if j < |p.key| {
        assert t[j] == p.key[j];
      } else if j > |p.key| {
        assert t[j] == p.value[j - |p.key| - 1];
      }
    }
  }

  /** Words strings.Fields can give back unchanged. */
  predicate AllWords(ts: seq<string>) {
    forall i :: 0 <= i < |ts| ==> IsWord(ts[i])
  }

  lemma {:induction false} TokensWords(names: seq<GoIdent>, vals: seq<string>)
    requires |names| == |vals|
    requires forall i :: 0 <= i < |vals| ==> Unbroken(vals[i])
    ensures AllWords(Tokens(Entries(names, vals)))
    decreases |vals|
  {
    if vals != [] {
      var n := |vals| - 1;
      TokensWords(names[..n], vals[..n]);
      var es := Entries(names[..n], vals[..n]);
      if vals[n] != "" {
        var p := Param(Key(names[n]), vals[n]);
        TokenWord(p);
        assert Entries(names, vals) == es + [p];
        assert (es + [p])[..|es|] == es;
        var ts := Tokens(es);
        assert Tokens(es + [p]) == ts + [Token(p)];
        forall i | 0 <= i < |ts| + 1
          ensures IsWord((ts + [Token(p)])[i])
        {
          if i < |ts| {
            assert (ts + [Token(p)])[i] == ts[i];
            assert IsWord(ts[i]);
          } else {
            assert (ts + [Token(p)])[i] == Token(p);
            assert IsWord(Token(p));
          }
        }
      } else {
        assert Entries(names, vals) == es + [];
        assert es + [] == es;
      }
    }
  }

  lemma {:induction false} SpacedEndsInSpace(ts: seq<string>)
    requires ts != []
    ensures |Spaced(ts)| > 0 && Spaced(ts)[|Spaced(ts)| - 1] == ' '
    decreases |ts|
  {
    if ts[1..] != [] {
      SpacedEndsInSpace(ts[1..]);
    }
  }

  /** The command line is the prologue words and the tokens, each followed by one space. */
  lemma CommandSpaced(es: seq<Param>)
    ensures Prologue + Render(es) == Spaced(PrologueWords + Tokens(es))
  {
    RenderSpaced(es);
    SpacedAppend(PrologueWords, Tokens(es));
  }

  /** A line of words each followed by a space runs its first word with the others as arguments. */
  lemma InvocationOfWords(words: seq<string>)
    requires words != [] && AllWords(words)
    ensures CreateInvocation(Spaced(words)) == Some(Command(words[0], words[1..]))
  {
    var line := Spaced(words);
    SpacedEndsInSpace(words);
    assert TrimSuffix(line, "\n") == line;
    FieldsSpaced(words);
  }

  /** Printable ASCII other than the space is never white space. */
  lemma GraphicWord(t: string)
    requires t != [] && forall j :: 0 <= j < |t| ==> '!' <= t[j] <= '~'
    ensures IsWord(t)
  {
  }

  lemma PrologueAllWords()
    ensures AllWords(PrologueWords)
  {
    GraphicWord("env");
    GraphicWord("NOCOLOR=1");
    GraphicWord("/usr/local/bin/cbsd");
    GraphicWord("bcreate");
    GraphicWord("inter=0");
  }

  lemma AllWordsAppend(a: seq<string>, b: seq<string>)
    requires AllWords(a) && AllWords(b)
    ensures AllWords(a + b)
  {
    forall i | 0 <= i < |a + b|
      ensures IsWord((a + b)[i])
    {
      if i >= |a| {
        assert (a + b)[i] == b[i - |a|];
      }
    }
  }

  /** Words in front of the tokens: the first word runs, the rest and the tokens are its arguments. */
  lemma InvocationOfPrefix(pre: seq<string>, ts: seq<string>)
    requires |pre| > 0 && AllWords(pre) && AllWords(ts)
    ensures CreateInvocation(Spaced(pre + ts)) == Some(Command(pre[0], pre[1..] + ts))
  {
    var words := pre + ts;
    AllWordsAppend(pre, ts);
    InvocationOfWords(words);
    assert words[0] == pre[0];
    assert words[1..] == pre[1..] + ts;
  }

  lemma InvocationOf(es: seq<Param>)
    requires AllWords(Tokens(es))
    ensures CreateInvocation(Prologue + Render(es)) == Some(Command("env", PrologueWords[1..] + Tokens(es)))
  {
    CommandSpaced(es);
    PrologueAllWords();
    InvocationOfPrefix(PrologueWords, Tokens(es));
  }

  /**
   * The argument vector the builder evidently means to pass: the four fixed
   * arguments, then each non-empty field as one `key=value` argument, in
   * field order, whatever the values hold.
   */
  function CreateArgv(d: BCreate): (c: Command)
    ensures |c.args| == 4 + |Entries(FieldNames, Values(d))|
    ensures c.program == "env" && c.args[..4] == ["NOCOLOR=1", "/usr/local/bin/cbsd", "bcreate", "inter=0"]
  {
    var c := Command("env", PrologueWords[1..] + Tokens(Entries(FieldNames, Values(d))));
    assert c.args[..4] == PrologueWords[1..];
    c
  }

  lemma {:induction false} TokensHas(es: seq<Param>, p: Param)
    requires p in es
    ensures Token(p) in Tokens(es)
    decreases |es|
  {
    var n := |es| - 1;
    if es[n] != p {
      assert p in es[..n] by {
        var k :| 0 <= k < |es| && es[k] == p;
        assert es[..n][k] == p;
      }
      TokensHas(es[..n], p);
    }
  }

  /** Every non-empty field is one argument of the intended vector. */
  lemma CreateArgvHasField(d: BCreate, i: nat)
    requires i < |FieldNames| && Values(d)[i] != ""
    ensures Token(Param(Key(FieldNames[i]), Values(d)[i])) in CreateArgv(d).args
  {
    var es := Entries(FieldNames, Values(d));
    EntriesHasField(FieldNames, Values(d), i);
    TokensHas(es, Param(Key(FieldNames[i]), Values(d)[i]));
  }

  /**
   * When no field value holds white space, splitting the command line again
   * gives back `env` and exactly the arguments that were written: the four
   * fixed ones, then one `key=value` per non-empty field, in field order.
   */
  lemma CreateRoundTrip(d: BCreate)
    requires forall i :: 0 <= i < |Values(d)| ==> Unbroken(Values(d)[i])
    ensures CreateInvocation(CreateCommand(d)) == Some(CreateArgv(d))
  {
    TokensWords(FieldNames, Values(d));
    InvocationOf(Entries(FieldNames, Values(d)));
  }

  /**
   * Unlike the lifecycle commands, the create path does break a value that
   * holds white space: an id `a b` reaches cbsd as `jname=a` followed by a
   * stray argument `b`, where the intended vector has `jname=a b`.
   */
  lemma SpacedIdSplits(a: string, b: string)
    requires IsWord(a) && IsWord(b)
    ensures CreateInvocation(CreateCommand(ForceName(EmptyBody, a + " " + b))) ==
      Some(Command("env", PrologueWords[1..] + ["jname=" + a, b]))
    ensures CreateInvocation(CreateCommand(ForceName(EmptyBody, a + " " + b))) != Some(CreateArgv(ForceName(EmptyBody, a + " " + b)))
  {
    var id := a + " " + b;
    SpacedIdLine(a, b);
    IdArgument(id);
  }

  lemma SpacedIdLine(a: string, b: string)
    requires IsWord(a) && IsWord(b)
    ensures CreateInvocation(CreateCommand(ForceName(EmptyBody, a + " " + b))) ==
      Some(Command("env", PrologueWords[1..] + ["jname=" + a, b]))
  {
    EmptyBodyCommand(a + " " + b);
    PrologueAllWords();
    NameLineSplits(PrologueWords, a, b);
  }

  /** With an empty body the intended vector carries the id, whatever it holds, as the one argument `jname=<id>`. */
  lemma IdArgument(id: string)
    requires id != ""
    ensures CreateArgv(ForceName(EmptyBody, id)).args == PrologueWords[1..] + ["jname=" + id]
  {
    EmptyBodyEntries(id);
    var p := Param("jname", id);
    assert Tokens([p]) == [Token(p)] by {
      assert [p][..0] == [];
    }
    assert "jname" + "=" == "jname=";
  }

  lemma NameLineSplits(pre: seq<string>, a: string, b: string)
    requires pre != [] && AllWords(pre) && IsWord(a) && IsWord(b)
    ensures CreateInvocation(Spaced(pre) + "jname=" + (a + " " + b) + " ") ==
      Some(Command(pre[0], pre[1..] + ["jname=" + a, b]))
  {
    var tail := ["jname=" + a, b];
    var words := pre + tail;
    NameLineSpaced(pre, a, b);
    NameTailWords(a, b);
    AllWordsAppend(pre, tail);
    InvocationOfWords(words);
    assert words[0] == pre[0] && words[1..] == pre[1..] + tail;
  }

  lemma NameTailWords(a: string, b: string)
    requires IsWord(a) && IsWord(b)
    ensures AllWords(["jname=" + a, b])
  {
    JnameWord(a);
  }

  lemma NameLineSpaced(pre: seq<string>, a: string, b: string)
    ensures Spaced(pre) + "jname=" + (a + " " + b) + " " == Spaced(pre + ["jname=" + a, b])
  {
    var j, id := "jname=", a + " " + b;
    SplitTail(a, b);
    ConcatAssoc(Spaced(pre), j, id);
    ConcatAssoc(Spaced(pre), j + id, " ");
    SpacedAppend(pre, ["jname=" + a, b]);
  }

  lemma JnameWord(a: string)
    requires IsWord(a)
    ensures IsWord("jname=" + a)
  {
    var t := "jname=" + a;
    forall j | 0 <= j < |t|
      ensures !IsSpace(t[j])
    {
      if j >= 6 {
        assert t[j] == a[j - 6];
      }
    }
  }

  lemma SplitTail(a: string, b: string)
    ensures "jname=" + (a + " " + b) + " " == Spaced(["jname=" + a, b])
  {
    var tail := ["jname=" + a, b];
    assert tail[1..] == [b] && [b][1..] == [];
    assert Spaced([b]) == b + " ";
    var j := "jname=";
    calc {
      Spaced(tail);
      j + a + " " + (b + " ");
      { ConcatAssoc(j + a + " ", b, " "); }
      j + a + " " + b + " ";
      { ConcatAssoc(j, a, " "); }
      j + (a + " ") + b + " ";
      { ConcatAssoc(j, a + " ", b); }
      j + (a + " " + b) + " ";
    }
  }
}
