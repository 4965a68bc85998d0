/**
 * Windows command lines: one text that the child's C runtime splits again. The quoter writes each
 * argument so that the runtime's backslash-and-quote rule gives it back.
 */
module WindowsQuoter {
  predicate Blank(c: char) {
    c == ' ' || c == '\t'
  }

  /** How many backslashes a text starts with. */
  function Slashes(s: string): (n: nat)
    ensures n <= |s| && (n < |s| ==> s[n] != '\\')
    ensures forall i :: 0 <= i < n ==> s[i] == '\\'
  {
    if s != [] && s[0] == '\\' then 1 + Slashes(s[1..]) else 0
  }

  function Run(n: nat): (s: string)
    ensures |s| == n && forall i :: 0 <= i < n ==> s[i] == '\\'
  {
    seq(n, _ => '\\')
  }

  // The runtime's rule, for the arguments after the program's name.

  /**
   * One argument off the front of a text, and what is left of it. An even run of backslashes
   * before a quote is halved and the quote opens or closes; an odd one is halved and the quote
   * is a character; a run before anything else stands. Two quotes inside quotes are one character.
   */
  function One(s: string, quoted: bool): (r: (string, string))
    ensures |r.1| <= |s|
    decreases |s|
  {
    if s == [] then ([], [])
    else
      var n := Slashes(s);
      if n < |s| && s[n] == '"' then
        if n % 2 == 0 && quoted && n + 1 < |s| && s[n + 1] == '"' then
          After(Run(n / 2) + ['"'], One(s[n + 2..], quoted))
        else if n % 2 == 0 then After(Run(n / 2), One(s[n + 1..], !quoted))
        else After(Run(n / 2) + ['"'], One(s[n + 1..], quoted))
      else if n > 0 then After(Run(n), One(s[n..], quoted))
      else if !quoted && Blank(s[0]) then ([], s)
      else After([s[0]], One(s[1..], quoted))
  }

  /** Characters in front of an argument. */
  function After(some: string, r: (string, string)): (string, string) {
    (some + r.0, r.1)
  }

  /** All the arguments of a text. */
  function Arguments(s: string): seq<string>
    decreases |s|
  {
    if s == [] then []
    else if Blank(s[0]) then Arguments(s[1..])
    else
      var (a, rest) := One(s, false);
      if |rest| < |s| then [a] + Arguments(rest) else [a]
  }

  // The quoter.

  predicate NeedsQuotes(arg: string) {
    arg == [] || exists i :: 0 <= i < |arg| && (arg[i] == ' ' || arg[i] == '\t' || arg[i] == '\n' || arg[i] == '"')
  }

  /** What is written between the quotes. */
  function Body(arg: string): (b: string)
    ensures |b| <= 2 * |arg|
    decreases |arg|
  {
    var n := Slashes(arg);
    if n == |arg| then Run(2 * n)
    else if arg[n] == '"' then Run(2 * n + 1) + ['"'] + Body(arg[n + 1..])
    else Run(n) + [arg[n]] + Body(arg[n + 1..])
  }

  function Quoted(arg: string): (q: string)
    ensures |q| <= 2 * |arg| + 2
  {
    if NeedsQuotes(arg) then ['"'] + Body(arg) + ['"'] else arg
  }

  /** A command line of arguments, each after a blank. */
  function Line(args: seq<string>): string {
    if args == [] then [] else [' '] + Quoted(args[0]) + Line(args[1..])
  }

  /** One more argument is one more blank and one more quoted text at the end. */
  lemma {:induction false} LineGrows(args: seq<string>, arg: string)
    ensures Line(args + [arg]) == Line(args) + " " + Quoted(arg)
  {
    hide Quoted;
    if args == [] {
      assert Line([arg]) == " " + Quoted(arg) + Line([]);
    } else {
      assert (args + [arg])[1..] == args[1..] + [arg];
      LineGrows(args[1..], arg);
    }
  }

  /** A whole command line: the program's name, then its arguments. */
  function Command(list: seq<string>): string
    requires list != []
  {
    Quoted(list[0]) + Line(list[1..])
  }

  lemma CommandGrows(list: seq<string>, k: nat)
    requires 0 < k < |list|
    ensures Command(list[..k + 1]) == Command(list[..k]) + " " + Quoted(list[k])
  {
    hide Quoted, Line;
    assert list[..k + 1][1..] == list[1..k] + [list[k]] && list[..k][1..] == list[1..k];
    LineGrows(list[1..k], list[k]);
  }

  lemma CommandStarts(list: seq<string>)
    requires list != []
    ensures Command(list[..1]) == Quoted(list[0]) && Quoted(list[0]) != []
  {}

  /** The rest of a line after an argument: nothing, or a blank. */
  predicate Ends(rest: string) {
    rest == [] || rest[0] == ' '
  }

  lemma {:induction false} SlashesOfRun(n: nat, s: string)
    requires s == [] || s[0] != '\\'
    ensures Slashes(Run(n) + s) == n
  {
    if n > 0 {
      assert (Run(n) + s)[1..] == Run(n - 1) + s;
      SlashesOfRun(n - 1, s);
    } else {
      assert Run(0) + s == s;
    }
  }

  lemma StopsAtEnd(rest: string)
    requires Ends(rest)
    ensures One(rest, false) == ([], rest)
  {}

  /** One run of backslashes and what follows it, as the rule reads it. */
  lemma EvenRun(s: string, n: nat, t: string, r: (string, string))
    requires Slashes(s) == n < |s| && s[n] == '"' && n % 2 == 0 && t == s[n + 1..] && (t == [] || t[0] != '"')
    requires r == One(t, false)
    ensures One(s, true) == After(Run(n / 2), r)
  {
    hide Slashes, Run, After;
  }

  lemma RunThenClose(n: nat, rest: string)
    requires Ends(rest)
    ensures One(Run(2 * n) + ['"'] + rest, true) == (Run(n), rest)
  {
    hide One, Slashes;
    var s := Run(2 * n) + ['"'] + rest;
    assert s == Run(2 * n) + (['"'] + rest);
    SlashesOfRun(2 * n, ['"'] + rest);
    assert s[2 * n + 1..] == rest;
    StopsAtEnd(rest);
    EvenRun(s, 2 * n, rest, One(rest, false));
    assert Run(n) + [] == Run(n);
  }

  lemma OddRun(s: string, n: nat, t: string, r: (string, string))
    requires Slashes(s) == n < |s| && s[n] == '"' && n % 2 == 1 && t == s[n + 1..] && r == One(t, true)
    ensures One(s, true) == After(Run(n / 2) + ['"'], r)
  {
    hide Slashes, Run, After;
  }

  lemma RunThenQuote(n: nat, more: string)
    ensures One(Run(2 * n + 1) + ['"'] + more, true) == After(Run(n) + ['"'], One(more, true))
  {
    hide One, Slashes;
    var s := Run(2 * n + 1) + ['"'] + more;
    assert s == Run(2 * n + 1) + (['"'] + more);
    SlashesOfRun(2 * n + 1, ['"'] + more);
    assert s[2 * n + 2..] == more;
    OddRun(s, 2 * n + 1, more, One(more, true));
  }

  lemma PlainCharacter(c: char, more: string, quoted: bool, r: (string, string))
    requires c != '\\' && c != '"' && (Blank(c) ==> quoted) && r == One(more, quoted)
    ensures One([c] + more, quoted) == After([c], r)
  {
    assert ([c] + more)[1..] == more;
  }

  lemma RunThenOther(n: nat, c: char, more: string, quoted: bool)
    requires c != '\\' && c != '"' && (Blank(c) ==> quoted)
    ensures One(Run(n) + [c] + more, quoted) == After(Run(n) + [c], One(more, quoted))
  {
    hide One, Slashes;
    var r := One(more, quoted);
    PlainCharacter(c, more, quoted, r);
    var s, t := Run(n) + [c] + more, [c] + more;
    assert s == Run(n) + t;
    if n == 0 {
      assert s == t && Run(n) + [c] == [c];
    } else {
      SlashesOfRun(n, t);
      RunRead(n, t, quoted, One(t, quoted));
    }
    assert Run(n) + ([c] + r.0) == Run(n) + [c] + r.0;
  }

  lemma RunRead(n: nat, t: string, quoted: bool, r: (string, string))
    requires n > 0 && t != [] && t[0] != '\\' && t[0] != '"' && Slashes(Run(n) + t) == n && r == One(t, quoted)
    ensures One(Run(n) + t, quoted) == After(Run(n), r)
  {
    assert (Run(n) + t)[n..] == t;
  }

  lemma Opened(arg: string, n: nat)
    requires n == Slashes(arg)
    ensures n == |arg| ==> arg == Run(n)
    ensures n < |arg| ==> arg == Run(n) + [arg[n]] + arg[n + 1..]
  {
    hide Slashes;
    if n == |arg| {
      assert arg == Run(n);
    } else {
      assert arg[..n] == Run(n);
      assert arg == arg[..n] + [arg[n]] + arg[n + 1..];
    }
  }

  /** What was written between quotes is read back to the closing one. */
  lemma {:induction false} BodyRead(arg: string, rest: string)
    requires Ends(rest)
    ensures One(Body(arg) + ['"'] + rest, true) == (arg, rest)
    decreases |arg|
  {
    hide One;
    var n := Slashes(arg);
    Opened(arg, n);
    if n == |arg| {
      RunThenClose(n, rest);
    } else {
      var more := Body(arg[n + 1..]) + ['"'] + rest;
      BodyRead(arg[n + 1..], rest);
      if arg[n] == '"' {
        assert Body(arg) + ['"'] + rest == Run(2 * n + 1) + ['"'] + more;
        RunThenQuote(n, more);
      } else {
        assert Body(arg) + ['"'] + rest == Run(n) + [arg[n]] + more;
        RunThenOther(n, arg[n], more, true);
      }
    }
  }

  lemma RunThenEnd(n: nat, rest: string)
    requires Ends(rest)
    ensures One(Run(n) + rest, false) == (Run(n), rest)
  {
    SlashesOfRun(n, rest);
    assert (Run(n) + rest)[n..] == rest;
    StopsAtEnd(rest);
    assert Run(n) + [] == Run(n);
    if n == 0 {
      assert Run(n) + rest == rest;
    }
  }

  /** An argument that needs no quotes is read as it stands. */
  lemma {:induction false} PlainRead(arg: string, rest: string)
    requires Ends(rest)
    requires forall i :: 0 <= i < |arg| ==> arg[i] != ' ' && arg[i] != '\t' && arg[i] != '"'
    ensures One(arg + rest, false) == (arg, rest)
    decreases |arg|
  {
    hide One;
    var n := Slashes(arg);
    Opened(arg, n);
    if n == |arg| {
      RunThenEnd(n, rest);
    } else {
      PlainRead(arg[n + 1..], rest);
      assert arg + rest == Run(n) + [arg[n]] + (arg[n + 1..] + rest);
      RunThenOther(n, arg[n], arg[n + 1..] + rest, false);
    }
  }

  lemma OpenQuote(more: string, r: (string, string))
    requires more != [] && (more[0] == '"' ==> |more| == 1 || more[1] == ' ') && r == One(more, true)
    ensures One(['"'] + more, false) == r
  {
    var s := ['"'] + more;
    assert s[1..] == more;
    assert Run(0) + r.0 == r.0;
  }

  lemma QuotedRead(arg: string, rest: string)
    requires Ends(rest)
    ensures One(Quoted(arg) + rest, false) == (arg, rest)
    ensures Quoted(arg) != [] && !Blank(Quoted(arg)[0])
  {
    hide One, Body;
    if NeedsQuotes(arg) {
      hide NeedsQuotes;
      var more := Body(arg) + ['"'] + rest;
      BodyRead(arg, rest);
      BodyStart(arg);
      assert Quoted(arg) + rest == ['"'] + more;
      OpenQuote(more, One(more, true));
    } else {
      PlainRead(arg, rest);
    }
  }

  /** Between the quotes a quote never comes first. */
  lemma BodyStart(arg: string)
    ensures Body(arg) != [] ==> Body(arg)[0] != '"'
    ensures Body(arg) == [] ==> arg == []
  {}

  lemma LineEnds(args: seq<string>)
    ensures Ends(Line(args))
  {}

  /** Quoting and splitting undo each other: every list of arguments comes back. */
  lemma {:induction false} SplitGivesBack(args: seq<string>)
    ensures Arguments(Line(args)) == args
    decreases |args|
  {
    hide One, Quoted;
    if args != [] {
      var rest := Line(args[1..]);
      LineEnds(args[1..]);
      QuotedRead(args[0], rest);
      SplitGivesBack(args[1..]);
      var s := Quoted(args[0]) + rest;
      assert Line(args)[1..] == s;
      assert Arguments(Line(args)) == Arguments(s);
      assert s[0] == Quoted(args[0])[0];
      assert args == [args[0]] + args[1..];
    }
  }

  lemma CommandSplits(list: seq<string>)
    requires list != []
    ensures |Quoted(list[0])| <= |Command(list)|
    ensures Arguments(Command(list)[|Quoted(list[0])|..]) == list[1..]
  {
    hide Quoted, Line, Arguments;
    SplitGivesBack(list[1..]);
    assert Command(list)[|Quoted(list[0])|..] == Line(list[1..]);
  }

  /** The command line as it is built: characters, how many there are, and a closing NUL. */
  class CommandLine {
    var cmd: array<char>
    var n: nat

    constructor ()
      ensures n == 0 && cmd.Length == 0 && fresh(cmd)
    {
      cmd, n := new char[0], 0;
    }

    ghost predicate Valid()
      reads this, cmd
    {
      n <= cmd.Length && (n > 0 ==> n < cmd.Length && cmd[n] == '\0')
    }

    /** Room for more characters: 256 at first, then twice as many until they fit. */
    method Reserve(room: nat)
      requires n <= cmd.Length
      modifies this`cmd
      ensures n + room <= cmd.Length && cmd[..n] == old(cmd[..n])
      ensures cmd == old(cmd) || fresh(cmd)
    {
      if n + room > cmd.Length {
        var nc := if cmd.Length == 0 then 256 else cmd.Length * 2;
        while nc < n + room
          invariant nc > 0 && nc >= cmd.Length
          decreases n + room - nc
        {
          nc := nc * 2;
        }
        var nb := new char[nc];
        for i := 0 to n
          invariant cmd == old(cmd) && n <= cmd.Length && cmd[..] == old(cmd[..])
          invariant nb[..i] == cmd[..i]
        {
          nb[i] := cmd[i];
        }
        cmd := nb;
      }
    }

    /** Backslashes, or any characters, at the end of what there is. */
    method Put(text: string)
      requires n + |text| <= cmd.Length
      modifies this`n, cmd
      ensures n == old(n) + |text| && cmd[..n] == old(cmd[..n]) + text
    {
      for i := 0 to |text|
        invariant cmd == old(cmd) && n == old(n)
        invariant cmd[..n] == old(cmd[..n]) && cmd[n..n + i] == text[..i]
      {
        cmd[n + i] := text[i];
        assert cmd[n..n + i + 1] == cmd[n..n + i] + [text[i]];
        assert text[..i + 1] == text[..i] + [text[i]];
      }
      assert cmd[..n + |text|] == cmd[..n] + cmd[n..n + |text|];
      n := n + |text|;
    }

    /**
     * One argument joins the line, after a blank if it is not the first, quoted as it must be.
     * Twice its length and four more is always room enough, the closing NUL included.
     */
    method Quote(arg: string, memory: bool) returns (ok: bool)
      requires Valid() && '\0' !in arg
      modifies this, cmd
      ensures Valid() && (memory ==> ok) && (cmd == old(cmd) || fresh(cmd))
      ensures ok ==> cmd[..n] == old(cmd[..n]) + (if old(n) > 0 then " " else "") + Quoted(arg)
      ensures !ok ==> n == old(n) && cmd == old(cmd) && cmd[..] == old(cmd[..])
    {
      var need := |arg| * 2 + 4;
      var quote := NeedsQuotes(arg);
      if n + need + 2 > cmd.Length && !memory {
        return false;
      }
      Reserve(need + 2);
      ghost var was := cmd[..n];
      if n > 0 {
        Put(" ");
      }
      if !quote {
        Put(arg);
      } else {
        PutQuoted(arg);
      }
      cmd[n] := '\0';
      ok := true;
      assert cmd[..n] == was + (if old(n) > 0 then " " else "") + Quoted(arg);
    }

    /**
     * A program's name and its arguments, quoted one after another. What stands after the name is
     * split into the arguments again. No name at all is a failure, and so is memory running out.
     */
    method QuoteAll(list: seq<string>, memory: seq<bool>) returns (ok: bool)
      requires Valid() && n == 0 && |memory| == |list| && forall k :: 0 <= k < |list| ==> '\0' !in list[k]
      modifies this, cmd
      ensures ok ==> list != [] && Valid() && cmd[..n] == Command(list)
      ensures ok ==> |Quoted(list[0])| <= n && Arguments(cmd[|Quoted(list[0])|..n]) == list[1..]
      ensures list != [] && (forall k :: 0 <= k < |memory| ==> memory[k]) ==> ok
    {
      hide Quoted, Line, Command, Arguments;
      for k := 0 to |list|
        invariant Valid() && (cmd == old(cmd) || fresh(cmd))
        invariant if k == 0 then n == 0 else n > 0 && cmd[..n] == Command(list[..k])
      {
        ok := Quote(list[k], memory[k]);
        if !ok {
          return;
        }
        CommandStarts(list);
        if k > 0 {
          CommandGrows(list, k);
        } else {
          assert cmd[..n] == Quoted(list[0]);
        }
      }
      ok := list != [];
      if ok {
        assert list[..|list|] == list;
        CommandSplits(list);
        assert cmd[|Quoted(list[0])|..n] == cmd[..n][|Quoted(list[0])|..];
      }
    }

    /** A run of backslashes and the character after it, as they are written between quotes. */
    method PutRun(arg: string, from: nat) returns (i: nat, ghost piece: string)
      requires from < |arg| && n + 2 * (|arg| - from) <= cmd.Length
      modifies this`n, cmd
      ensures from < i <= |arg| && |piece| <= 2 * (i - from)
      ensures n == old(n) + |piece| <= cmd.Length && cmd[..n] == old(cmd[..n]) + piece
      ensures Body(arg[from..]) == piece + Body(arg[i..])
    {
      hide Body, Slashes;
      i := from;
      var bs := 0;
      while i < |arg| && arg[i] == '\\'
        invariant cmd == old(cmd) && n == old(n) && cmd[..n] == old(cmd[..n])
        invariant from <= i <= |arg| && bs == i - from
        invariant forall j :: from <= j < i ==> arg[j] == '\\'
      {
        bs := bs + 1;
        i := i + 1;
      }
      BodyOf(arg, from, i);
      if i == |arg| {
        BodyOfNothing();
        piece := Run(bs * 2);
        Put(Run(bs * 2));
        assert arg[i..] == [];
      } else if arg[i] == '"' {
        piece := Run(bs * 2 + 1) + ['"'];
        Put(Run(bs * 2 + 1));
        Put("\"");
        i := i + 1;
      } else {
        piece := Run(bs) + [arg[i]];
        Put(Run(bs));
        Put([arg[i]]);
        i := i + 1;
      }
    }

    method PutQuoted(arg: string)
      requires n + 2 * |arg| + 2 <= cmd.Length
      modifies this`n, cmd
      ensures n <= cmd.Length && cmd[..n] == old(cmd[..n]) + (['"'] + Body(arg) + ['"'])
    {
      hide Body, Slashes;
      BodyOfNothing();
      ghost var was := cmd[..n];
      Put("\"");
      var i := 0;
      ghost var done: string := [];
      assert arg[0..] == arg;
      while i < |arg|
        invariant 0 <= i <= |arg| && cmd == old(cmd) && n == |was| + 1 + |done| && |done| <= 2 * i
        invariant n <= cmd.Length && cmd[..n] == was + ['"'] + done
        invariant done + Body(arg[i..]) == Body(arg)
      {
        ghost var piece;
        i, piece := PutRun(arg, i);
        assert done + (piece + Body(arg[i..])) == done + piece + Body(arg[i..]);
        done := done + piece;
      }
      assert arg[i..] == [];
      Put("\"");
    }
  }

  lemma {:induction false} SlashesAre(s: string, n: nat)
    requires n <= |s| && (n < |s| ==> s[n] != '\\') && forall i :: 0 <= i < n ==> s[i] == '\\'
    ensures Slashes(s) == n
  {
    if n > 0 {
      SlashesAre(s[1..], n - 1);
    }
  }

  lemma BodyOfNothing()
    ensures Body([]) == []
  {}

  lemma BodyIs(t: string, n: nat)
    requires n == Slashes(t)
    ensures n == |t| ==> Body(t) == Run(2 * n)
    ensures n < |t| && t[n] == '"' ==> Body(t) == Run(2 * n + 1) + ['"'] + Body(t[n + 1..])
    ensures n < |t| && t[n] != '"' ==> Body(t) == Run(n) + [t[n]] + Body(t[n + 1..])
  {}

  lemma BodyOf(arg: string, from: nat, i: nat)
    requires from <= i <= |arg| && (i < |arg| ==> arg[i] != '\\') && forall j :: from <= j < i ==> arg[j] == '\\'
    ensures i == |arg| ==> Body(arg[from..]) == Run(2 * (i - from))
    ensures i < |arg| && arg[i] == '"' ==> Body(arg[from..]) == Run(2 * (i - from) + 1) + ['"'] + Body(arg[i + 1..])
    ensures i < |arg| && arg[i] != '"' ==> Body(arg[from..]) == Run(i - from) + [arg[i]] + Body(arg[i + 1..])
  {
    hide Body, Slashes;
    var t := arg[from..];
    SlashesAre(t, i - from);
    BodyIs(t, i - from);
    if i < |arg| {
      assert t[i - from + 1..] == arg[i + 1..];
    }
  }
}
