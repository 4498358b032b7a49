/**
 Splitting a command line into options, command and parameters, and what
 becomes of it when the client joins the parameters and the server splits and
 parses them again.
 */
module CommandLine {
  import opened Bytes
  import opened Text

  datatype Op = Init | List | Remove

  /** The six forward commands, which the scan treats specially, and the rest by code. */
  datatype Command = Forward(reverse: bool, op: Op) | Other(code: nat)

  /** CMD_MAP: the forward commands, and `t` for the others. */
  function Lookup(t: map<string, nat>, cmd: string): Option<Command> {
    if cmd == "fport" then Some(Forward(false, Init))
    else if cmd == "rport" then Some(Forward(true, Init))
    else if cmd == "fport ls" then Some(Forward(false, List))
    else if cmd == "rport ls" then Some(Forward(true, List))
    else if cmd == "fport rm" then Some(Forward(false, Remove))
    else if cmd == "rport rm" then Some(Forward(true, Remove))
    else Table(t, cmd)
  }

  function Table(t: map<string, nat>, cmd: string): (c: Option<Command>)
    ensures c.Some? ==> c.value.Other?
  {
    if cmd in t then Some(Other(t[cmd])) else None
  }

  const MAX_CMD_LEN: nat := 3

  predicate SpaceFree(tokens: seq<string>) {
    forall i :: 0 <= i < |tokens| ==> ' ' !in tokens[i]
  }

  datatype Parsed = Parsed(options: seq<string>, command: Option<Command>, parameters: seq<string>)

  // ------------------------------------------------------------------
  // The reference: first position where a command starts
  // ------------------------------------------------------------------

  /** The shortest command of at most three tokens at `st`. */
  function Shortest(t: map<string, nat>, input: seq<string>, st: nat, len: nat): Option<Command>
    requires st < |input| && 1 <= len
    decreases MAX_CMD_LEN + 1 - len
  {
    if len > MAX_CMD_LEN || st + len > |input| then None
    else
      var c := Lookup(t, Join(input[st..st + len], ' '));
      if c.Some? then c else Shortest(t, input, st, len + 1)
  }

  /** fport and rport take in an immediately following ls or rm. */
  function StartsAt(t: map<string, nat>, input: seq<string>, st: nat): Option<Command>
    requires st < |input|
  {
    var c := Shortest(t, input, st, 1);
    if c.Some? && c.value.Forward? && c.value.op == Init && st + 1 < |input| && input[st + 1] == "ls"
    then Some(c.value.(op := List))
    else if c.Some? && c.value.Forward? && c.value.op == Init && st + 1 < |input| && input[st + 1] == "rm"
    then Some(c.value.(op := Remove))
    else c
  }

  function FirstFrom(t: map<string, nat>, input: seq<string>, st: nat): (r: (nat, Option<Command>))
    requires st <= |input|
    ensures st <= r.0 <= |input|
    decreases |input| - st
  {
    if st == |input| then (st, None)
    else if StartsAt(t, input, st).Some? then (st, StartsAt(t, input, st))
    else FirstFrom(t, input, st + 1)
  }

  function Parse(t: map<string, nat>, input: seq<string>): Parsed {
    var (st, c) := FirstFrom(t, input, 0);
    Parsed(input[..st], c, input[st..])
  }

  // ------------------------------------------------------------------
  // The inner scan of the source
  // ------------------------------------------------------------------

  predicate IsInit(c: Option<Command>) {
    c.Some? && c.value.Forward? && c.value.op == Init
  }

  predicate IsListOrRemove(c: Command) {
    c.Forward? && c.op != Init
  }

  /** What the loop over `len` makes of the command and index found so far. */
  function Inner(t: map<string, nat>, input: seq<string>, st: nat, len: nat, c: Option<Command>, index: nat): (Option<Command>, nat)
    requires st < |input| && 1 <= len
    decreases MAX_CMD_LEN + 1 - len
  {
    if len > MAX_CMD_LEN || st + len > |input| then (c, index)
    else match Lookup(t, Join(input[st..st + len], ' '))
      case None => Inner(t, input, st, len + 1, c, index)
      case Some(found) =>
        if IsInit(c) && !IsListOrRemove(found) then (c, index)
        else if IsInit(Some(found)) then Inner(t, input, st, len + 1, Some(found), st)
        else (Some(found), st)
  }

  /** The forward command a list of words spells. */
  function Spelled(words: seq<string>): Option<Command> {
    if |words| == 0 || (words[0] != "fport" && words[0] != "rport") then None
    else
      var reverse := words[0] == "rport";
      if |words| == 1 then Some(Forward(reverse, Init))
      else if |words| == 2 && words[1] == "ls" then Some(Forward(reverse, List))
      else if |words| == 2 && words[1] == "rm" then Some(Forward(reverse, Remove))
      else None
  }

  lemma TwoWords(cmd: string, a: string, b: string)
    requires ' ' !in a && ' ' !in b && SpaceFree(Split(cmd, ' '))
    ensures cmd == a + " " + b <==> Split(cmd, ' ') == [a, b]
  {
    assert [a, b][1..] == [b];
    assert Join([a, b], ' ') == a + " " + b;
    SplitJoin([a, b], ' ');
    JoinSplit(cmd, ' ');
  }

  lemma OneWord(cmd: string, a: string)
    requires ' ' !in a
    ensures cmd == a <==> Split(cmd, ' ') == [a]
  {
    SplitWhole(a, ' ');
    JoinSplit(cmd, ' ');
    assert Join([a], ' ') == a;
  }

  lemma Different()
    ensures "fport" != "rport" && "ls" != "rm"
    ensures "fport ls" == "fport" + " " + "ls" && "rport ls" == "rport" + " " + "ls"
    ensures "fport rm" == "fport" + " " + "rm" && "rport rm" == "rport" + " " + "rm"
  {
    assert "fport"[0] != "rport"[0] && "ls"[0] != "rm"[0];
  }

  /** The table, by the words of the key. */
  lemma LookupIs(t: map<string, nat>, cmd: string)
    ensures var f := Spelled(Split(cmd, ' ')); Lookup(t, cmd) == if f.Some? then f else Table(t, cmd)
  {
    hide Table, Join;
    JoinSplit(cmd, ' ');
    OneWord(cmd, "fport");
    OneWord(cmd, "rport");
    Different();
    TwoWords(cmd, "fport", "ls");
    TwoWords(cmd, "rport", "ls");
    TwoWords(cmd, "fport", "rm");
    TwoWords(cmd, "rport", "rm");
    hide Split;
    var words := Split(cmd, ' ');
    if |words| == 1 {
      assert words == [words[0]];
    } else if |words| == 2 {
      assert words == [words[0], words[1]];
    }
  }

  lemma {:induction false} SplitCount(a: string, b: string)
    ensures |Split(a + [' '] + b, ' ')| == |Split(a, ' ')| + |Split(b, ' ')|
  {
    if a == [] {
      assert ([] + [' '] + b)[1..] == b;
    } else {
      assert (a + [' '] + b)[1..] == a[1..] + [' '] + b;
      SplitCount(a[1..], b);
    }
  }

  lemma {:induction false} SplitAtLeast(tokens: seq<string>)
    requires tokens != []
    ensures |Split(Join(tokens, ' '), ' ')| >= |tokens|
    ensures |Split(Join(tokens, ' '), ' ')| == |tokens| ==> SpaceFree(tokens)
  {
    if |tokens| == 1 {
      if |Split(tokens[0], ' ')| == 1 {
        JoinSplit(tokens[0], ' ');
      }
    } else {
      SplitCount(tokens[0], Join(tokens[1..], ' '));
      SplitAtLeast(tokens[1..]);
      if |Split(tokens[0], ' ')| == 1 {
        JoinSplit(tokens[0], ' ');
      }
    }
  }

  /** Two or more tokens spell a forward command only word by word, whatever spaces they contain. */
  lemma LookupLong(t: map<string, nat>, words: seq<string>)
    requires |words| >= 2
    ensures var f := Spelled(words); Lookup(t, Join(words, ' ')) == if f.Some? then f else Table(t, Join(words, ' '))
  {
    hide Table, Lookup, Split, Join;
    LookupIs(t, Join(words, ' '));
    SplitAtLeast(words);
    if SpaceFree(words) {
      SplitJoin(words, ' ');
    } else {
      NotSpelled(words);
      assert |Split(Join(words, ' '), ' ')| > 2;
    }
  }

  lemma NotSpelled(words: seq<string>)
    requires |words| >= 2 && !SpaceFree(words)
    ensures Spelled(words).None?
  {
  }

  /** A single token that is one of the two-word forward commands. */
  predicate IsPhrase(token: string) {
    token == "fport ls" || token == "rport ls" || token == "fport rm" || token == "rport rm"
  }

  lemma LookupOne(t: map<string, nat>, words: seq<string>)
    requires |words| == 1
    ensures var c := Lookup(t, Join(words, ' '));
            && (c.Some? && IsListOrRemove(c.value) <==> IsPhrase(words[0]))
            && (IsInit(c) <==> Spelled(words).Some?)
            && (IsInit(c) ==> c == Spelled(words))
  {
    hide Table;
    assert |"fport"| != |"fport ls"|;
    Different();
  }

  /** Once fport or rport is found, only a later phrase can follow it up. */
  lemma {:induction false} InnerSettled(t: map<string, nat>, input: seq<string>, st: nat, len: nat, c: Option<Command>,
                                        index: nat)
    requires st < |input| && 1 <= len && IsInit(c) && (len == 1 ==> !IsPhrase(input[st]))
    requires len == 1 || len >= 3 || Spelled(input[st..st + 1]).None?
    ensures Inner(t, input, st, len, c, index) == (c, index)
    decreases MAX_CMD_LEN + 1 - len
  {
    hide Table, Join, Lookup, IsPhrase;
    if len <= MAX_CMD_LEN && st + len <= |input| {
      var words := input[st..st + len];
      if len == 1 { LookupOne(t, words); } else { LookupLong(t, words); }
      assert words[0] == input[st..st + 1][0] == input[st];
      if Lookup(t, Join(words, ' ')).None? {
        InnerSettled(t, input, st, len + 1, c, index);
      }
    }
  }

  /** And it does. */
  lemma InnerOverridden(t: map<string, nat>, input: seq<string>, st: nat, c: Option<Command>, index: nat)
    requires st < |input| && IsInit(c) && IsPhrase(input[st])
    ensures Inner(t, input, st, 1, c, index) == (Lookup(t, input[st]), st)
    ensures Lookup(t, input[st]).Some? && !IsInit(Lookup(t, input[st]))
  {
    var words := input[st..st + 1];
    LookupOne(t, words);
    assert words == [input[st]] && Join(words, ' ') == input[st];
    hide Table, Lookup, Join;
  }

  /** The scan at one position, when nothing was found before. */
  lemma {:induction false} InnerFresh(t: map<string, nat>, input: seq<string>, st: nat, len: nat, index: nat)
    requires st < |input| && 1 <= len
    ensures var c, r := Shortest(t, input, st, len), Inner(t, input, st, len, None, index);
            && (c.None? ==> r == (None, index))
            && (c.Some? && !IsInit(c) ==> r == (c, st))
            && (IsInit(c) ==> Spelled(input[st..st + 1]) == c && r == Inner(t, input, st, 2, c, st))
    decreases MAX_CMD_LEN + 1 - len
  {
    hide Table, Join, Lookup, IsPhrase;
    if len <= MAX_CMD_LEN && st + len <= |input| {
      var words := input[st..st + len];
      if len == 1 { LookupOne(t, words); } else { LookupLong(t, words); }
      assert words[0] == input[st];
      if Lookup(t, Join(words, ' ')).None? {
        InnerFresh(t, input, st, len + 1, index);
      }
    }
  }

  lemma InnerExtends(t: map<string, nat>, input: seq<string>, st: nat, c: Option<Command>)
    requires st < |input| && IsInit(c) && Spelled(input[st..st + 1]) == c
    requires Shortest(t, input, st, 1) == c
    ensures Inner(t, input, st, 2, c, st) == (StartsAt(t, input, st), st)
  {
    hide Table, Join, Lookup, Shortest, IsPhrase;
    if st + 2 <= |input| {
      var words := input[st..st + 2];
      LookupLong(t, words);
      assert words == [input[st], input[st + 1]];
      if Lookup(t, Join(words, ' ')).None? {
        InnerSettled(t, input, st, 3, c, st);
      }
    }
  }

  lemma InnerIs(t: map<string, nat>, input: seq<string>, st: nat, index: nat)
    requires st < |input|
    ensures var c := StartsAt(t, input, st);
            Inner(t, input, st, 1, None, index) == if c.Some? then (c, st) else (None, index)
  {
    hide Table, Join, Lookup, Inner, Shortest, Spelled;
    InnerFresh(t, input, st, 1, index);
    if IsInit(Shortest(t, input, st, 1)) {
      InnerExtends(t, input, st, Shortest(t, input, st, 1));
    }
  }

  // ------------------------------------------------------------------
  // The whole scan
  // ------------------------------------------------------------------

  /** The first phrase from `st` on, or the end. */
  function PhraseFrom(input: seq<string>, st: nat): (k: nat)
    requires st <= |input|
    ensures st <= k <= |input| && (k < |input| ==> IsPhrase(input[k]))
    ensures forall i :: st <= i < k ==> !IsPhrase(input[i])
    decreases |input| - st
  {
    if st == |input| || IsPhrase(input[st]) then st else PhraseFrom(input, st + 1)
  }

  /** The command found is a bare fport or rport, and a later token is a phrase. */
  ghost predicate Overridden(t: map<string, nat>, input: seq<string>) {
    var p := Parse(t, input);
    IsInit(p.command) && exists k :: |p.options| < k < |input| && IsPhrase(input[k])
  }

  /** Where the scan ends, for any tokens. */
  function Scanned(t: map<string, nat>, input: seq<string>): (r: (nat, Option<Command>))
    ensures r.0 <= |input|
  {
    var (i, c) := FirstFrom(t, input, 0);
    if IsInit(c) && i < |input| && PhraseFrom(input, i + 1) < |input|
    then (PhraseFrom(input, i + 1), Lookup(t, input[PhraseFrom(input, i + 1)]))
    else (i, c)
  }

  lemma ScannedIff(t: map<string, nat>, input: seq<string>)
    ensures Scanned(t, input) == FirstFrom(t, input, 0) <==> !Overridden(t, input)
  {
    hide StartsAt, IsPhrase, Lookup, Table;
    FirstFound(t, input, 0);
  }

  /** The smallest such line. */
  lemma PhraseOverrides(t: map<string, nat>)
    ensures Overridden(t, ["fport", "rport ls"])
  {
    hide Table;
    var input := ["fport", "rport ls"];
    assert Join(input[0..1], ' ') == "fport" by { assert input[0..1] == ["fport"]; }
    assert Shortest(t, input, 0, 1) == Some(Forward(false, Init));
    assert input[1] != "ls" && input[1] != "rm" by { assert |input[1]| == 8; }
    assert FirstFrom(t, input, 0) == (0, Some(Forward(false, Init)));
    assert IsPhrase(input[1]);
  }

  lemma SpaceFreeStands(t: map<string, nat>, input: seq<string>)
    requires SpaceFree(input)
    ensures !Overridden(t, input)
  {
    hide Parse;
    assert forall k :: 0 <= k < |input| && IsPhrase(input[k]) ==> input[k][5] == ' ';
  }

  /**
   split_opt_and_cmd, for any tokens: nothing is lost; and the result is the
   first command, shortest match, with ls and rm taken in, if and only if that
   is not a bare fport or rport with a later token that is a phrase; then the
   first such phrase is.
   */
  method SplitOptAndCmd(t: map<string, nat>, input: seq<string>) returns (p: Parsed)
    ensures p.options + p.parameters == input
    ensures p == Parse(t, input) <==> !Overridden(t, input)
    ensures Overridden(t, input) ==>
              var k := |p.options|;
              && k < |input| && IsPhrase(input[k]) && p.command == Lookup(t, input[k])
              && forall i :: |Parse(t, input).options| < i < k ==> !IsPhrase(input[i])
    ensures SpaceFree(input) ==> p == Parse(t, input)
  {
    hide Lookup, Table, Inner, SpaceFree, IsPhrase, Overridden, Scanning, Scanned, Parse;
    ScanStart(t, input);
    var cmdOpt: Option<Command> := None;
    var cmdIndex: nat, st: nat := |input|, 0;
    while st < |input|
      invariant 0 <= st <= |input| && cmdIndex <= |input|
      invariant Scanning(t, input, st, cmdOpt, cmdIndex)
    {
      ScanStep(t, input, st, cmdOpt, cmdIndex);
      cmdOpt, cmdIndex := ScanAt(t, input, st, cmdOpt, cmdIndex);
      if cmdOpt.Some? && !IsInit(cmdOpt) {
        ScanEnds(t, input, cmdOpt, cmdIndex);
        return Parsed(input[..cmdIndex], cmdOpt, input[cmdIndex..]);
      }
      st := st + 1;
    }
    ScanDone(t, input, cmdOpt, cmdIndex);
    ScanEnds(t, input, cmdOpt, cmdIndex);
    p := Parsed(input[..cmdIndex], cmdOpt, input[cmdIndex..]);
  }

  /** What the scan knows before position `st`, while it goes on. */
  ghost predicate Scanning(t: map<string, nat>, input: seq<string>, st: nat, c: Option<Command>, index: nat)
    requires st <= |input|
  {
    if c.None? then index == |input| && FirstFrom(t, input, 0) == FirstFrom(t, input, st)
    else
      && IsInit(c) && index < st && FirstFrom(t, input, 0) == (index, c)
      && PhraseFrom(input, index + 1) == PhraseFrom(input, st)
  }

  lemma ScanStep(t: map<string, nat>, input: seq<string>, st: nat, c: Option<Command>, index: nat)
    requires st < |input| && Scanning(t, input, st, c, index)
    ensures var (c', index') := Inner(t, input, st, 1, c, index);
            if c'.Some? && !IsInit(c') then Scanned(t, input) == (index', c') else Scanning(t, input, st + 1, c', index')
  {
    hide Lookup, Table, Inner, StartsAt, IsPhrase;
    if c.None? {
      InnerIs(t, input, st, index);
    } else if IsPhrase(input[st]) {
      InnerOverridden(t, input, st, c, index);
    } else {
      InnerSettled(t, input, st, 1, c, index);
    }
  }

  lemma ScanStart(t: map<string, nat>, input: seq<string>)
    ensures Scanning(t, input, 0, None, |input|)
  {
  }

  lemma ScanDone(t: map<string, nat>, input: seq<string>, c: Option<Command>, index: nat)
    requires Scanning(t, input, |input|, c, index)
    ensures Scanned(t, input) == (index, c)
  {
    hide Lookup, Table, StartsAt, IsPhrase;
  }

  lemma ScanEnds(t: map<string, nat>, input: seq<string>, c: Option<Command>, index: nat)
    requires Scanned(t, input) == (index, c) && index <= |input|
    ensures var p := Parsed(input[..index], c, input[index..]);
            && (p == Parse(t, input) <==> !Overridden(t, input))
            && (Overridden(t, input) ==>
                  && index < |input| && IsPhrase(input[index]) && c == Lookup(t, input[index])
                  && forall i :: |Parse(t, input).options| < i < index ==> !IsPhrase(input[i]))
            && (SpaceFree(input) ==> p == Parse(t, input))
  {
    hide Lookup, Table, StartsAt, IsPhrase, SpaceFree;
    ScannedIff(t, input);
    if SpaceFree(input) { SpaceFreeStands(t, input); }
    FirstFound(t, input, 0);
    var (i, first) := FirstFrom(t, input, 0);
    assert |Parse(t, input).options| == i && |input[..index]| == index;
  }

  /** The loop over the length of the candidate. */
  method ScanAt(t: map<string, nat>, input: seq<string>, st: nat, cmdOpt0: Option<Command>, cmdIndex0: nat)
    returns (cmdOpt: Option<Command>, cmdIndex: nat)
    requires st < |input|
    ensures (cmdOpt, cmdIndex) == Inner(t, input, st, 1, cmdOpt0, cmdIndex0)
    ensures cmdIndex == cmdIndex0 || cmdIndex == st
  {
    hide Lookup, Table, Join;
    cmdOpt, cmdIndex := cmdOpt0, cmdIndex0;
    var len := 1;
    while len <= MAX_CMD_LEN
      invariant 1 <= len && (cmdIndex == cmdIndex0 || cmdIndex == st)
      invariant Inner(t, input, st, len, cmdOpt, cmdIndex) == Inner(t, input, st, 1, cmdOpt0, cmdIndex0)
      decreases MAX_CMD_LEN + 1 - len
    {
      if st + len > |input| {
        break;
      }
      var command := Lookup(t, Join(input[st..st + len], ' '));
      if command.Some? {
        if IsInit(cmdOpt) && !IsListOrRemove(command.value) {
          break;
        }
        cmdIndex, cmdOpt := st, command;
        if !IsInit(command) {
          break;
        }
      }
      len := len + 1;
    }
  }

  // ------------------------------------------------------------------
  // The client joins, the server splits and parses again
  // ------------------------------------------------------------------

  /** `trim_end_matches('\0')`. */
  function TrimNul(s: string): (t: string)
    ensures t <= s && (t == s <==> s == [] || s[|s| - 1] != '\0')
  {
    if s != [] && s[|s| - 1] == '\0' then TrimNul(s[..|s| - 1]) else s
  }

  function TrimAll(tokens: seq<string>): (r: seq<string>)
    ensures |r| == |tokens| && forall i :: 0 <= i < |r| ==> r[i] == TrimNul(tokens[i])
  {
    seq(|tokens|, i requires 0 <= i < |tokens| => TrimNul(tokens[i]))
  }

  function ServerTokens(line: string): seq<string> {
    TrimAll(Split(line, ' '))
  }

  predicate Plain(token: string) {
    ' ' !in token && (token == [] || token[|token| - 1] != '\0')
  }

  /** The server sees the client's tokens exactly when none has a space or ends in NUL. */
  lemma ServerSeesIff(tokens: seq<string>)
    requires tokens != []
    ensures ServerTokens(Join(tokens, ' ')) == tokens <==> forall i :: 0 <= i < |tokens| ==> Plain(tokens[i])
  {
    var parts := Split(Join(tokens, ' '), ' ');
    SplitAtLeast(tokens);
    if SpaceFree(tokens) {
      SplitJoin(tokens, ' ');
      assert forall i :: 0 <= i < |tokens| ==> ServerTokens(Join(tokens, ' '))[i] == TrimNul(tokens[i]);
    }
  }

  lemma {:induction false} FirstFound(t: map<string, nat>, input: seq<string>, st: nat)
    requires st <= |input|
    ensures var (i, c) := FirstFrom(t, input, st);
            && st <= i <= |input|
            && (c.Some? ==> i < |input| && StartsAt(t, input, i) == c)
            && (c.None? ==> i == |input|)
            && (forall j :: st <= j < i ==> StartsAt(t, input, j).None?)
    decreases |input| - st
  {
    hide StartsAt;
    if st < |input| && StartsAt(t, input, st).None? {
      FirstFound(t, input, st + 1);
    }
  }

  lemma {:induction false} ShortestDrop(t: map<string, nat>, input: seq<string>, k: nat, len: nat)
    requires k < |input| && 1 <= len
    ensures Shortest(t, input[k..], 0, len) == Shortest(t, input, k, len)
    decreases MAX_CMD_LEN + 1 - len
  {
    hide Lookup, Table, Join;
    if len <= MAX_CMD_LEN && k + len <= |input| {
      assert input[k..][0..len] == input[k..k + len];
      ShortestDrop(t, input, k, len + 1);
    }
  }

  ghost predicate SameCommand(p: Parsed, q: Parsed) {
    q.options == [] && q.command == p.command && q.parameters == p.parameters
  }

  /** Parsing the parameters of a parsed line gives the same command and no options. */
  lemma ReparseSame(t: map<string, nat>, input: seq<string>, p: Parsed)
    requires p == Parse(t, input) && p.command.Some?
    ensures SameCommand(p, Parse(t, p.parameters))
  {
    hide Shortest;
    FirstFound(t, input, 0);
    var (k, c) := FirstFrom(t, input, 0);
    var rest := input[k..];
    ShortestDrop(t, input, k, 1);
    assert StartsAt(t, rest, 0) == StartsAt(t, input, k);
  }

  /** The parameters are a non-empty end of the input. */
  lemma ParametersAre(t: map<string, nat>, input: seq<string>, p: Parsed)
    requires p == Parse(t, input) && p.command.Some?
    ensures p.parameters != [] && |p.parameters| <= |input| && p.parameters == input[|input| - |p.parameters|..]
  {
    hide StartsAt;
    FirstFound(t, input, 0);
  }

  /** From the client's tokens to the server's dispatch: same command, same parameters, no options. */
  lemma ServerParsesSame(t: map<string, nat>, input: seq<string>, p: Parsed, tokens: seq<string>)
    requires p == Parse(t, input) && p.command.Some?
    requires forall i :: 0 <= i < |input| ==> Plain(input[i])
    requires tokens == ServerTokens(Join(p.parameters, ' '))
    ensures SameCommand(p, Parse(t, tokens))
  {
    hide Parse, Split, Join, ServerTokens, SameCommand, Plain;
    ParametersAre(t, input, p);
    ServerSeesIff(p.parameters);
    ReparseSame(t, input, p);
  }
}
