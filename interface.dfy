/**
 * A physical interface of a switch (hpswitch/interface.py), whose friendly
 * name is read from and written to the switch's command line.
 *
 * The name is read with the multi-line pattern `^   name "(.*?)"\s*$`. Since
 * `.` stops at a line break and `\s*$` can only succeed where the rest of the
 * line is white space, the pattern matches within one line of the output: a
 * line that starts with the prefix `   name "` and holds a quote after which
 * only white space follows. The first such line wins, and in it the lazy group
 * ends at the first such quote.
 */
module Interface {
  import opened Runtime
  import Switch

  /** The start of the running-config line that carries an interface's name. */
  const NamePrefix: string := "   name \""

  /** A quote at position `j` of `line` that is followed by nothing but white space. */
  predicate ClosesName(line: string, j: int)
  {
    0 <= j < |line| && line[j] == '"' && AllSpace(line[j + 1..])
  }

  /** Only the last quote of a line can close a name: a later quote is not white space. */
  lemma ClosingQuoteIsLast(line: string, j: int)
    requires ClosesName(line, j)
    ensures forall k | 0 <= k < |line| && k != j :: !ClosesName(line, k)
  {
    forall k | 0 <= k < |line| && k != j
      ensures !ClosesName(line, k)
    {
      if k < j {
        assert line[k + 1..][j - k - 1] == line[j];
      } else {
        assert line[j + 1..][k - j - 1] == line[k];
      }
    }
  }

  /** The lazy group's end: the first position at or after `i` that closes a name. */
  function ClosingQuote(line: string, i: nat): (r: Option<nat>)
    requires i <= |line|
    ensures r.Some? ==> i <= r.value && ClosesName(line, r.value)
    ensures r.Some? ==> forall j | i <= j < r.value :: !ClosesName(line, j)
    ensures r.None? <==> forall j | i <= j < |line| :: !ClosesName(line, j)
    decreases |line| - i
  {
    if i == |line| then None
    else if ClosesName(line, i) then Some(i)
    else ClosingQuote(line, i + 1)
  }

  /** The name the pattern captures on one line of the output, if it matches that line. */
  function NameInLine(line: string): (r: Option<string>)
    ensures r.Some? <==> |line| >= |NamePrefix| && line[..|NamePrefix|] == NamePrefix
                          && exists j | |NamePrefix| <= j < |line| :: ClosesName(line, j)
    ensures r.Some? ==> var end := |NamePrefix| + |r.value|;
              && end < |line| && line[|NamePrefix|..end] == r.value && ClosesName(line, end)
              && forall j | |NamePrefix| <= j < end :: !ClosesName(line, j)
  {
    if |line| < |NamePrefix| || line[..|NamePrefix|] != NamePrefix then None
    else
      match ClosingQuote(line, |NamePrefix|)
      case None => None
      case Some(j) => Some(line[|NamePrefix|..j])
  }

  /** The position of the first line the pattern matches, or the number of lines when none does. */
  function FirstMatch(lines: seq<string>): (k: nat)
    ensures k <= |lines|
    ensures k < |lines| ==> NameInLine(lines[k]).Some?
    ensures forall m | 0 <= m < k :: NameInLine(lines[m]).None?
  {
    if lines == [] || NameInLine(lines[0]).Some? then 0
    else
      var k := FirstMatch(lines[1..]);
      assert forall m | 1 <= m < k + 1 :: lines[m] == lines[1..][m - 1];
      k + 1
  }

  /** The name of the first line the pattern matches, if any line matches. */
  function FirstName(lines: seq<string>): (r: Option<string>)
  {
    var k := FirstMatch(lines);
    if k < |lines| then NameInLine(lines[k]) else None
  }

  /** `FirstName` is None exactly when no line matches, and otherwise the name of a line no earlier line precedes as a match. */
  lemma FirstNameMeaning(lines: seq<string>)
    ensures FirstName(lines).None? <==> forall k | 0 <= k < |lines| :: NameInLine(lines[k]).None?
    ensures FirstName(lines).Some? ==> exists k | 0 <= k < |lines| ::
              FirstName(lines) == NameInLine(lines[k]) && forall m | 0 <= m < k :: NameInLine(lines[m]).None?
  {
    var k := FirstMatch(lines);
    if k < |lines| {
      assert FirstName(lines) == NameInLine(lines[k]);
    }
  }

  /** The name `re.search` finds in the output of `show running-config interface`. */
  function ExtractName(output: string): (r: Option<string>)
    ensures r.None? <==> NoNameLine(output)
    ensures r.Some? ==> exists k | 0 <= k < |Split(output, '\n')| ::
              && r == NameInLine(Split(output, '\n')[k])
              && forall m | 0 <= m < k :: NameInLine(Split(output, '\n')[m]).None?
  {
    var lines := Split(output, '\n');
    FirstNameMeaning(lines);
    FirstName(lines)
  }

  /** No line of the output is one the pattern matches. */
  predicate NoNameLine(output: string)
  {
    var lines := Split(output, '\n');
    forall k | 0 <= k < |lines| :: NameInLine(lines[k]).None?
  }

  /** The line naming an interface `name` is read back as exactly `name`, quotes inside it included. */
  lemma NameLineRoundTrip(name: string, trailing: string)
    requires AllSpace(trailing)
    ensures NameInLine(NamePrefix + name + "\"" + trailing) == Some(name)
  {
    var line := NamePrefix + name + "\"" + trailing;
    var j := |NamePrefix| + |name|;
    assert line[..|NamePrefix|] == NamePrefix;
    assert line[j + 1..] == trailing;
    assert ClosesName(line, j);
    ClosingQuoteIsLast(line, j);
    assert line[|NamePrefix|..j] == name;
  }

  /** Lines the pattern does not match before the others only shift the first match. */
  lemma {:induction false} FirstMatchAfter(before: seq<string>, rest: seq<string>)
    requires forall k | 0 <= k < |before| :: NameInLine(before[k]).None?
    ensures FirstMatch(before + rest) == |before| + FirstMatch(rest)
  {
    if before != [] {
      var lines := before + rest;
      assert lines[0] == before[0] && lines[1..] == before[1..] + rest;
      FirstMatchSkip(lines);
      NoMatchInTail(before);
      FirstMatchAfter(before[1..], rest);
    } else {
      assert before + rest == rest;
    }
  }

  /** A first line the pattern does not match shifts the first match by one. */
  lemma FirstMatchSkip(lines: seq<string>)
    requires lines != [] && NameInLine(lines[0]).None?
    ensures FirstMatch(lines) == FirstMatch(lines[1..]) + 1
  {
  }

  /** Dropping the first of lines the pattern does not match leaves lines it does not match. */
  lemma NoMatchInTail(lines: seq<string>)
    requires lines != [] && forall k | 0 <= k < |lines| :: NameInLine(lines[k]).None?
    ensures forall k | 0 <= k < |lines[1..]| :: NameInLine(lines[1..][k]).None?
  {
    assert forall k | 0 <= k < |lines[1..]| :: lines[1..][k] == lines[k + 1];
  }

  /** The first line the pattern matches, after unmatched ones, decides the name. */
  lemma FirstNameAfter(before: seq<string>, line: string, after: seq<string>)
    requires forall k | 0 <= k < |before| :: NameInLine(before[k]).None?
    requires NameInLine(line).Some?
    ensures FirstName(before + [line] + after) == NameInLine(line)
  {
    var lines := before + [line] + after;
    assert lines == before + ([line] + after);
    FirstMatchAfter(before, [line] + after);
    assert lines[|before|] == line;
  }

  /** The lines around a name line hold no line break when neither they nor the name do. */
  lemma NameLinesUnbroken(before: seq<string>, line: string, after: seq<string>)
    requires forall k | 0 <= k < |before| :: '\n' !in before[k]
    requires forall k | 0 <= k < |after| :: '\n' !in after[k]
    requires '\n' !in line
    ensures forall k | 0 <= k < |before + [line] + after| :: '\n' !in (before + [line] + after)[k]
  {
    var lines := before + [line] + after;
    forall k | 0 <= k < |lines| ensures '\n' !in lines[k] {
      if k < |before| { assert lines[k] == before[k]; }
      else if k > |before| { assert lines[k] == after[k - |before| - 1]; }
    }
  }

  /**
   * A running-config whose first name line names the interface `name` is read
   * back as `name`, whatever lines surround it.
   */
  lemma ExtractNameRoundTrip(before: seq<string>, name: string, trailing: string, after: seq<string>)
    requires forall k | 0 <= k < |before| :: '\n' !in before[k] && NameInLine(before[k]).None?
    requires forall k | 0 <= k < |after| :: '\n' !in after[k]
    requires '\n' !in name && '\n' !in trailing && AllSpace(trailing)
    ensures ExtractName(Join(before + [NamePrefix + name + "\"" + trailing] + after, '\n')) == Some(name)
  {
    var line := NamePrefix + name + "\"" + trailing;
    assert '\n' !in NamePrefix && '\n' !in "\"";
    assert '\n' !in NamePrefix + name + "\"";
    NameLinesUnbroken(before, line, after);
    SplitJoin(before + [line] + after, '\n');
    NameLineRoundTrip(name, trailing);
    FirstNameAfter(before, line, after);
  }

  /**
   * The commands `_set_name` issues, or the assertion it fails: the name may
   * hold only ASCII letters and digits.
   */
  function SetNameCommands(identifier: string, value: string): (r: Result<seq<string>>)
    ensures r.Success? <==> AllAsciiAlnum(value)
    ensures r.Failure? ==> r.error == AssertionError
    ensures r.Success? ==> |r.value| == 3 && r.value[0] == "config" && r.value[2] == "exit"
    ensures r.Success? ==> r.value[1] == "interface " + identifier + " name " + value
  {
    if !AllAsciiAlnum(value) then Failure(AssertionError)
    else Success(["config", "interface " + identifier + " name " + value, "exit"])
  }

  /** The commands `_del_name` issues. */
  function DelNameCommands(identifier: string): (commands: seq<string>)
    ensures |commands| == 3 && commands[0] == "config" && commands[2] == "exit"
    ensures forall value | AllAsciiAlnum(value) ::
              "no " + SetNameCommands(identifier, value).value[1] == commands[1] + " " + value
  {
    ["config", "no interface " + identifier + " name", "exit"]
  }

  /** The command whose output `_get_name` searches. */
  function ShowCommand(identifier: string): string
  {
    "show running-config interface " + identifier
  }

  /**
   * A name `_set_name` accepts is read back by `_get_name` from the line the
   * switch then shows in its running-config, whichever unnamed lines surround it.
   */
  lemma SetNameReadBack(identifier: string, value: string, before: seq<string>, after: seq<string>)
    requires SetNameCommands(identifier, value).Success?
    requires forall k | 0 <= k < |before| :: '\n' !in before[k] && NameInLine(before[k]).None?
    requires forall k | 0 <= k < |after| :: '\n' !in after[k]
    ensures ExtractName(Join(before + [NamePrefix + value + "\""] + after, '\n')) == Some(value)
  {
    assert '\n' !in value by {
      forall i | 0 <= i < |value| ensures value[i] != '\n' {
        assert IsAsciiAlnum(value[i]);
      }
    }
    ExtractNameRoundTrip(before, value, [], after);
    assert NamePrefix + value + "\"" + [] == NamePrefix + value + "\"";
  }

  class Interface {
    const switch: Switch.Switch
    /** The identifier as the command line writes it, that is `str(identifier)`. */
    const identifier: string

    constructor (switch: Switch.Switch, identifier: string)
      ensures this.switch == switch && this.identifier == identifier
    {
      this.switch := switch;
      this.identifier := identifier;
    }

    /**
     * `_get_name`: issues `show running-config interface`; `runOutput` stands
     * for what the switch answers, and the name is the one found in it, if any.
     */
    method GetName(runOutput: string) returns (name: Option<string>)
      modifies switch
      ensures switch.commands == old(switch.commands) + [ShowCommand(identifier)]
      ensures switch.mib == old(switch.mib) && switch.setRequests == old(switch.setRequests)
      ensures name == ExtractName(runOutput)
      ensures name.None? <==> NoNameLine(runOutput)
    {
      switch.ExecuteCommand("show running-config interface " + identifier);
      name := ExtractName(runOutput);
      var lines := Split(runOutput, '\n');
      assert name == FirstName(lines);
      FirstNameMeaning(lines);
    }

    /** `_set_name`: a name of letters and digits is configured by three commands; any other fails the assertion and issues none. */
    method SetName(value: string) returns (o: Outcome)
      modifies switch
      ensures o.Pass? <==> AllAsciiAlnum(value)
      ensures o.Fail? ==> o.error == AssertionError && switch.commands == old(switch.commands)
      ensures o.Pass? ==> switch.commands == old(switch.commands) + SetNameCommands(identifier, value).value
      ensures switch.mib == old(switch.mib) && switch.setRequests == old(switch.setRequests)
    {
      if !AllAsciiAlnum(value) {
        return Fail(AssertionError);
      }
      switch.ExecuteCommand("config");
      switch.ExecuteCommand("interface " + identifier + " name " + value);
      switch.ExecuteCommand("exit");
      o := Pass;
    }

    /** `_del_name`: the three commands that remove the configured name. */
    method DelName()
      modifies switch
      ensures switch.commands == old(switch.commands) + DelNameCommands(identifier)
      ensures switch.mib == old(switch.mib) && switch.setRequests == old(switch.setRequests)
    {
      switch.ExecuteCommand("config");
      switch.ExecuteCommand("no interface " + identifier + " name");
      switch.ExecuteCommand("exit");
    }
  }
}
