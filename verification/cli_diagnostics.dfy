/**
 * The command line diagnostics plugin (modules/cli_diagnostics/module.py):
 * commands run from the console or the quick-ping button are recorded in
 * a command history and in a network log whose entries carry the first
 * dotted quad of the command as their target; lines of ping output update
 * the status of the newest entry; the ping and command tasks are checked
 * against the commands in the log.  The command itself runs in a worker
 * thread and is not modelled; its output lines are inputs.
 */
module CliDiagnostics {
  import opened Common

  // ---------------------------------------------------------------------
  // Dotted quads: the pattern (\d+\.\d+\.\d+\.\d+).

  /** Length of the run of decimal digits starting at `i`. */
  function DigitsFrom(s: string, i: nat): (n: nat)
    requires i <= |s|
    ensures i + n <= |s|
    decreases |s| - i
  {
    if i < |s| && IsDigit(s[i]) then 1 + DigitsFrom(s, i + 1) else 0
  }

  /** The run is all digits and ends at a non-digit or at the end. */
  lemma {:induction false} DigitRun(s: string, i: nat)
    requires i <= |s|
    ensures forall k :: i <= k < i + DigitsFrom(s, i) ==> IsDigit(s[k])
    ensures i + DigitsFrom(s, i) == |s| || !IsDigit(s[i + DigitsFrom(s, i)])
    decreases |s| - i
  {
    if i < |s| && IsDigit(s[i]) {
      DigitRun(s, i + 1);
    }
  }

  /** Where a match of `groups` dot-separated digit runs starting at `i`
      ends.  Each run is taken whole: a shorter one would be followed by a
      digit, never by the dot the pattern needs next. */
  function QuadEnd(s: string, i: nat, groups: nat): (r: Option<nat>)
    requires i <= |s| && groups >= 1
    ensures r.Some? ==> i < r.value <= |s|
    decreases groups
  {
    var n := DigitsFrom(s, i);
    if n == 0 then None
    else if groups == 1 then Some(i + n)
    else if i + n < |s| && s[i + n] == '.' then QuadEnd(s, i + n + 1, groups - 1)
    else None
  }

  /** The leftmost position at or after `from` where a dotted quad starts. */
  function FirstQuad(s: string, from: nat): (r: Option<nat>)
    requires from <= |s|
    ensures r.Some? ==>
      (from <= r.value <= |s| && QuadEnd(s, r.value, 4).Some?
       && forall k :: from <= k < r.value ==> QuadEnd(s, k, 4).None?)
    ensures r.None? ==> forall k :: from <= k <= |s| ==> QuadEnd(s, k, 4).None?
    decreases |s| - from
  {
    if QuadEnd(s, from, 4).Some? then Some(from)
    else if from == |s| then None
    else FirstQuad(s, from + 1)
  }

  /** `re.search` for a dotted quad: the leftmost one in `s`. */
  function SearchQuad(s: string): (r: Option<string>)
    ensures r.None? <==> forall k :: 0 <= k <= |s| ==> QuadEnd(s, k, 4).None?
    ensures r.Some? ==>
      exists i :: 0 <= i <= |s| && OccursAt(s, r.value, i) && QuadEnd(s, i, 4) == Some(i + |r.value|)
        && forall k :: 0 <= k < i ==> QuadEnd(s, k, 4).None?
  {
    var i := FirstQuad(s, 0);
    if i.None? then None
    else
      var e := QuadEnd(s, i.value, 4).value;
      var ip := s[i.value..e];
      assert OccursAt(s, ip, i.value) && QuadEnd(s, i.value, 4) == Some(i.value + |ip|);
      Some(ip)
  }

  /** The target column of a log entry: the command's first dotted quad, or
      `N/A`. */
  function TargetOf(command: string): string
  {
    var ip := SearchQuad(command);
    if ip.Some? then ip.value else "N/A"
  }

  lemma {:induction false} DigitsShift(p: string, t: string, i: nat)
    requires i <= |t|
    ensures DigitsFrom(p + t, |p| + i) == DigitsFrom(t, i)
    decreases |t| - i
  {
    if i < |t| {
      assert (p + t)[|p| + i] == t[i];
      if IsDigit(t[i]) {
        DigitsShift(p, t, i + 1);
      }
    }
  }

  /** Putting text in front of a string moves its dotted quads along. */
  lemma {:induction false} QuadShift(p: string, t: string, i: nat, groups: nat)
    requires i <= |t| && groups >= 1
    ensures QuadEnd(t, i, groups).None? ==> QuadEnd(p + t, |p| + i, groups).None?
    ensures QuadEnd(t, i, groups).Some? ==> QuadEnd(p + t, |p| + i, groups) == Some(|p| + QuadEnd(t, i, groups).value)
    decreases groups
  {
    var c := p + t;
    DigitsShift(p, t, i);
    var n := DigitsFrom(t, i);
    if n > 0 && groups > 1 && i + n < |t| {
      assert c[|p| + i + n] == t[i + n];
      if t[i + n] == '.' {
        QuadShift(p, t, i + n + 1, groups - 1);
        assert QuadEnd(c, |p| + i, groups) == QuadEnd(c, |p| + i + n + 1, groups - 1);
      }
    }
  }

  lemma {:induction false} DigitsPrefix(s: string, m: nat, i: nat)
    requires i <= m <= |s| && i + DigitsFrom(s, i) <= m
    ensures DigitsFrom(s[..m], i) == DigitsFrom(s, i)
    decreases m - i
  {
    if i < m {
      assert s[..m][i] == s[i];
      if IsDigit(s[i]) {
        DigitsPrefix(s, m, i + 1);
      }
    }
  }

  /** Cutting a string right after a dotted quad keeps the quad. */
  lemma {:induction false} QuadPrefix(s: string, m: nat, i: nat, groups: nat)
    requires i <= m <= |s| && groups >= 1
    requires QuadEnd(s, i, groups).Some? && QuadEnd(s, i, groups).value <= m
    ensures QuadEnd(s[..m], i, groups) == QuadEnd(s, i, groups)
    decreases groups
  {
    var n := DigitsFrom(s, i);
    if groups > 1 {
      assert i + n < |s|;
    }
    DigitsPrefix(s, m, i);
    if groups > 1 {
      assert s[..m][i + n] == s[i + n];
      QuadPrefix(s, m, i + n + 1, groups - 1);
    }
  }

  /** No dotted quad starts inside a dot-free prefix ending in a blank. */
  lemma NoQuadInPrefix(prefix: string, t: string, k: nat)
    requires |prefix| > 0 && prefix[|prefix| - 1] == ' ' && '.' !in prefix && k < |prefix|
    ensures QuadEnd(prefix + t, k, 4).None?
  {
    var c := prefix + t;
    var n := DigitsFrom(c, k);
    DigitRun(c, k);
    if n > 0 {
      assert c[|prefix| - 1] == ' ';
      assert k + n < |prefix|;
      assert c[k + n] == prefix[k + n];
    }
  }

  // ---------------------------------------------------------------------
  // Quick ping.

  /** The command `quick_ping` runs for the selected device entry: None
      when the entry is empty or does not start with a dotted quad. */
  function QuickPingCommand(device: string, continuous: bool, count: nat): (r: Option<string>)
  {
    if device == "" then None
    else
      var e := QuadEnd(device, 0, 4);
      if e.None? then None
      else
        Some(PingPrefix(continuous, count) + device[..e.value])
  }

  /** The text in front of the address in a quick-ping command. */
  function PingPrefix(continuous: bool, count: nat): (r: string)
    ensures |r| > 0 && r[|r| - 1] == ' ' && '.' !in r
  {
    var digits := NatToString(count);
    var r := if continuous then "ping -n " + digits + " " else "ping ";
    assert '.' !in r by {
      if continuous {
        forall k | 0 <= k < |r| ensures r[k] != '.' {
          if 8 <= k < 8 + |digits| {
            assert r[k] == digits[k - 8];
          }
        }
      }
    }
    r
  }

  /** The first dotted quad of a dot-free prefix ending in a blank followed
      by a string that starts with a dotted quad is that quad. */
  lemma SearchAfterPrefix(prefix: string, ip: string)
    requires |prefix| > 0 && prefix[|prefix| - 1] == ' ' && '.' !in prefix
    requires QuadEnd(ip, 0, 4) == Some(|ip|)
    ensures SearchQuad(prefix + ip) == Some(ip)
  {
    var c := prefix + ip;
    QuadShift(prefix, ip, 0, 4);
    forall k | 0 <= k < |prefix| ensures QuadEnd(c, k, 4).None? {
      NoQuadInPrefix(prefix, ip, k);
    }
    var first := FirstQuad(c, 0);
    assert first == Some(|prefix|);
    var e := |prefix| + |ip|;
    assert QuadEnd(c, |prefix|, 4) == Some(e);
    assert SearchQuad(c) == Some(c[|prefix|..e]);
    assert c[|prefix|..e] == ip;
  }

  /** The entry a quick ping logs names the device's own address as its
      target, whatever the count in front of it. */
  lemma QuickPingTarget(device: string, continuous: bool, count: nat)
    requires QuickPingCommand(device, continuous, count).Some?
    ensures TargetOf(QuickPingCommand(device, continuous, count).value) == device[..QuadEnd(device, 0, 4).value]
  {
    var e := QuadEnd(device, 0, 4).value;
    var ip := device[..e];
    QuadPrefix(device, e, 0, 4);
    var prefix := PingPrefix(continuous, count);
    assert QuickPingCommand(device, continuous, count).value == prefix + ip;
    SearchAfterPrefix(prefix, ip);
  }

  // ---------------------------------------------------------------------
  // Ping output.

  /** `time=<digits>ms` starts at `p`, the digits taken whole. */
  predicate TimeAt(s: string, p: nat)
  {
    OccursAt(s, "time=", p) && DigitsFrom(s, p + 5) > 0 && OccursAt(s, "ms", p + 5 + DigitsFrom(s, p + 5))
  }

  /** `Reply from ` followed by a digit or a dot starts at `i`. */
  predicate ReplyAt(s: string, i: nat)
  {
    OccursAt(s, "Reply from ", i) && i + 11 < |s| && (IsDigit(s[i + 11]) || s[i + 11] == '.')
  }

  /** The last time field starting below `below`. */
  function LastTimeAt(s: string, below: nat): (r: Option<nat>)
    ensures r.Some? ==> r.value < below && TimeAt(s, r.value) && forall q: nat :: r.value < q < below ==> !TimeAt(s, q)
    ensures r.None? ==> forall q: nat :: q < below ==> !TimeAt(s, q)
    decreases below
  {
    if below == 0 then None
    else if TimeAt(s, below - 1) then Some(below - 1)
    else LastTimeAt(s, below - 1)
  }

  /** The first reply at or after `from`. */
  function FirstReplyAt(s: string, from: nat): (r: Option<nat>)
    ensures r.Some? ==> from <= r.value && ReplyAt(s, r.value) && forall i: nat :: from <= i < r.value ==> !ReplyAt(s, i)
    ensures r.None? ==> forall i: nat :: from <= i ==> !ReplyAt(s, i)
    decreases |s| - from
  {
    if from >= |s| then None
    else if ReplyAt(s, from) then Some(from)
    else FirstReplyAt(s, from + 1)
  }

  /** The digits `Reply from ([\d.]+).*time=(\d+)ms` captures in an output
      line: the match opens at the first reply, and the greedy `.*` carries
      it to the last time field at least one address character later.  An
      output line is stripped, so it holds no line break for `.` to stop
      at. */
  function ReplyTime(s: string): (r: Option<string>)
    ensures r.Some? ==>
      exists i: nat, p: nat :: ReplyAt(s, i) && i + 12 <= p && TimeAt(s, p)
        && r.value == s[p + 5..p + 5 + DigitsFrom(s, p + 5)]
        && forall q: nat :: p < q ==> !TimeAt(s, q)
    ensures r.None? ==> forall i: nat, p: nat :: ReplyAt(s, i) && TimeAt(s, p) ==> p < i + 12
  {
    var i := FirstReplyAt(s, 0);
    var p := LastTimeAt(s, |s| + 1);
    if i.None? || p.None? || p.value < i.value + 12 then None
    else
      assert forall q: nat :: p.value < q ==> !TimeAt(s, q);
      Some(s[p.value + 5..p.value + 5 + DigitsFrom(s, p.value + 5)])
  }

  /** The status and response time `append_output` writes for an output
      line, if any: a reply line without a time match writes nothing. */
  function OutputUpdate(text: string): Option<(string, string)>
  {
    if Contains(text, "Reply from") then
      var t := ReplyTime(text);
      if t.Some? then Some(("Success", t.value + "ms")) else None
    else if Contains(text, "Request timed out") then Some(("Timeout", "N/A"))
    else if Contains(text, "Destination host unreachable") then Some(("Unreachable", "N/A"))
    else None
  }

  // ---------------------------------------------------------------------
  // Task checks.

  /** A task definition of the module data, as far as the checks read it. */
  datatype CliTask = CliTask(id: string, networkTargets: Option<seq<string>>, commands: Option<seq<string>>)

  /** The first task definition with the given id. */
  function TaskConfig(tasks: seq<CliTask>, id: string): (r: Option<CliTask>)
    ensures r.Some? ==> r.value in tasks && r.value.id == id
    ensures r.None? ==> forall t :: t in tasks ==> t.id != id
  {
    if |tasks| == 0 then None
    else if tasks[0].id == id then Some(tasks[0])
    else TaskConfig(tasks[1..], id)
  }

  const PingTasks: set<string> := {"ping_machine_network", "ping_riveter_network", "ping_video_network"}

  /** `cmd.split()[0]`: the first whitespace-delimited word; None for a
      blank command, where Python raises IndexError. */
  function FirstWord(s: string): (r: Option<string>)
    ensures r.Some? ==> r.value != []
  {
    var t := StripLeft(s);
    if t == [] then None else Some(t[..WordEnd(t, 0)])
  }

  /** The first word is None exactly for an all-blank command; otherwise it
      is the blank-free run that opens the command once leading blanks are
      dropped, ending at a blank or at the end. */
  lemma FirstWordIsSplitHead(s: string)
    ensures FirstWord(s).None? <==> forall k :: 0 <= k < |s| ==> IsSpace(s[k])
    ensures FirstWord(s).Some? ==>
      var w, t := FirstWord(s).value, StripLeft(s);
      StartsWith(t, w) && (forall c :: c in w ==> !IsSpace(c)) && (|w| == |t| || IsSpace(t[|w|]))
  {
    var t := StripLeft(s);
    if t != [] {
      var e := WordEnd(t, 0);
      assert !IsSpace(t[0]);
      forall c | c in t[..e] ensures !IsSpace(c) {
        var k :| 0 <= k < e && t[k] == c;
      }
    }
  }

  function WordEnd(t: string, i: nat): (e: nat)
    requires i <= |t|
    ensures i <= e <= |t| && (forall k :: i <= k < e ==> !IsSpace(t[k])) && (e == |t| || IsSpace(t[e]))
    decreases |t| - i
  {
    if i == |t| || IsSpace(t[i]) then i else WordEnd(t, i + 1)
  }

  /** The lowercased first words of the required commands; None when one is
      blank. */
  function RequiredWords(cmds: seq<string>): (r: Option<seq<string>>)
    ensures r.Some? <==> forall k :: 0 <= k < |cmds| ==> FirstWord(cmds[k]).Some?
    ensures r.Some? ==>
      (|r.value| == |cmds| && forall k :: 0 <= k < |cmds| ==> r.value[k] == Lower(FirstWord(cmds[k]).value))
  {
    if forall k :: 0 <= k < |cmds| ==> FirstWord(cmds[k]).Some? then
      Some(seq(|cmds|, k requires 0 <= k < |cmds| && FirstWord(cmds[k]).Some? => Lower(FirstWord(cmds[k]).value)))
    else None
  }


  /** `validate_task` over the commands in the network log; None stands for
      the IndexError a blank required command raises.  `screenshotExists`
      answers `check_screenshot_exists` for `open_cmd`. */
  function Validates(tasks: seq<CliTask>, logged: seq<string>, taskId: string, screenshotExists: bool): Option<bool>
  {
    if taskId == "open_cmd" then Some(screenshotExists)
    else if taskId in PingTasks then
      var config := TaskConfig(tasks, taskId);
      Some(config.Some? && config.value.networkTargets.Some?
        && exists target, c :: target in config.value.networkTargets.value && c in logged && Contains(c, target))
    else if taskId == "advanced_commands" then
      var config := TaskConfig(tasks, taskId);
      if config.None? || config.value.commands.None? then Some(false)
      else
        var required := RequiredWords(config.value.commands.value);
        if required.None? then None
        else Some(forall w :: w in required.value ==> exists c :: c in logged && Contains(Lower(c), w))
    else Some(true)
  }

  /** A logged command containing one of a ping task's targets passes it. */
  lemma PingPassesAfterRun(tasks: seq<CliTask>, logged: seq<string>, taskId: string, command: string,
                           target: string, screenshotExists: bool)
    requires taskId in PingTasks
    requires TaskConfig(tasks, taskId).Some? && TaskConfig(tasks, taskId).value.networkTargets.Some?
    requires target in TaskConfig(tasks, taskId).value.networkTargets.value && Contains(command, target)
    ensures Validates(tasks, logged + [command], taskId, screenshotExists) == Some(true)
  {
    assert command in logged + [command];
  }

  /** Logging more commands never undoes a passed check. */
  lemma ValidationMonotone(tasks: seq<CliTask>, logged: seq<string>, more: seq<string>, taskId: string,
                           screenshotExists: bool)
    requires Validates(tasks, logged, taskId, screenshotExists) == Some(true)
    ensures Validates(tasks, logged + more, taskId, screenshotExists) == Some(true)
  {
    var config := TaskConfig(tasks, taskId);
    if taskId in PingTasks {
      var target, c :| target in config.value.networkTargets.value && c in logged && Contains(c, target);
      assert c in logged + more;
    } else if taskId == "advanced_commands" {
      var required := RequiredWords(config.value.commands.value).value;
      forall w | w in required ensures exists c :: c in logged + more && Contains(Lower(c), w) {
        var c :| c in logged && Contains(Lower(c), w);
        assert c in logged + more;
      }
    }
  }

  /** With an empty log no ping task passes, and neither does the command
      task once it requires any command. */
  lemma EmptyLogFails(tasks: seq<CliTask>, taskId: string, screenshotExists: bool)
    requires taskId in PingTasks || taskId == "advanced_commands"
    requires taskId == "advanced_commands" && TaskConfig(tasks, taskId).Some? ==>
      (var cmds := TaskConfig(tasks, taskId).value.commands; cmds.Some? && cmds.value != [])
    ensures Validates(tasks, [], taskId, screenshotExists) != Some(true)
  {
    if taskId == "advanced_commands" {
      var config := TaskConfig(tasks, taskId);
      if config.Some? {
        var required := RequiredWords(config.value.commands.value);
        if required.Some? {
          assert required.value[0] in required.value;
        }
      }
    }
  }

  // ---------------------------------------------------------------------
  // The module's state.

  /** A network log row; the time is the clock's `%H:%M:%S` reading. */
  datatype LogEntry = LogEntry(time: string, command: string, target: string, status: string, responseTime: string,
                               notes: string)

  const Executing := "Executing..."

  /** The commands of the log, in order. */
  function Commands(log: seq<LogEntry>): (r: seq<string>)
    ensures |r| == |log| && forall i :: 0 <= i < |log| ==> r[i] == log[i].command
  {
    seq(|log|, i requires 0 <= i < |log| => log[i].command)
  }

  class CliDiagnosticsModule {
    /** The task definitions of the module data. */
    const tasks: seq<CliTask>
    var commandHistory: seq<string>
    var networkLog: seq<LogEntry>

    constructor (tasks: seq<CliTask>)
      ensures this.tasks == tasks && commandHistory == [] && networkLog == []
    {
      this.tasks := tasks;
      commandHistory := [];
      networkLog := [];
    }

    /** `run_command` with `add_to_network_log`: the command is recorded
        once in the history and once in the log, with its target and the
        status `Executing...`. */
    method RunCommand(command: string, time: string)
      modifies this
      ensures commandHistory == old(commandHistory) + [command]
      ensures networkLog == old(networkLog) + [LogEntry(time, command, TargetOf(command), Executing, "", "")]
    {
      commandHistory := commandHistory + [command];
      networkLog := networkLog + [LogEntry(time, command, TargetOf(command), Executing, "", "")];
    }

    /** `execute_command`: the stripped input is run unless it is blank. */
    method ExecuteCommand(input: string, time: string)
      modifies this
      ensures Strip(input) == "" ==> commandHistory == old(commandHistory) && networkLog == old(networkLog)
      ensures Strip(input) != "" ==>
        commandHistory == old(commandHistory) + [Strip(input)]
        && networkLog == old(networkLog) + [LogEntry(time, Strip(input), TargetOf(Strip(input)), Executing, "", "")]
    {
      var command := Strip(input);
      if command != "" {
        RunCommand(command, time);
      }
    }

    /** `quick_ping` for the selected device entry, the state of the
        continuous box and the count spinner. */
    method QuickPing(device: string, continuous: bool, count: nat, time: string) returns (command: Option<string>)
      modifies this
      ensures command == QuickPingCommand(device, continuous, count)
      ensures command.None? ==> commandHistory == old(commandHistory) && networkLog == old(networkLog)
      ensures command.Some? ==>
        commandHistory == old(commandHistory) + [command.value]
        && networkLog == old(networkLog) + [LogEntry(time, command.value, TargetOf(command.value), Executing, "", "")]
        && networkLog[|networkLog| - 1].target == device[..QuadEnd(device, 0, 4).value]
    {
      command := QuickPingCommand(device, continuous, count);
      if command.Some? {
        QuickPingTarget(device, continuous, count);
        RunCommand(command.value, time);
      }
    }

    /** `update_last_log_entry`: the newest entry gets the status and the
        response time, nothing else changes; an empty log stays empty. */
    method UpdateLastLogEntry(status: string, responseTime: string)
      modifies this
      ensures |networkLog| == |old(networkLog)|
      ensures forall i :: 0 <= i < |networkLog| - 1 ==> networkLog[i] == old(networkLog)[i]
      ensures |networkLog| > 0 ==>
        networkLog[|networkLog| - 1] == old(networkLog)[|networkLog| - 1].(status := status, responseTime := responseTime)
      ensures Commands(networkLog) == Commands(old(networkLog))
      ensures commandHistory == old(commandHistory)
    {
      if |networkLog| > 0 {
        var last := networkLog[|networkLog| - 1];
        networkLog := networkLog[|networkLog| - 1 := last.(status := status, responseTime := responseTime)];
        assert Commands(networkLog) == Commands(old(networkLog));
      }
    }

    /** `append_output`'s log update for one output line. */
    method AppendOutput(text: string)
      modifies this
      ensures OutputUpdate(text).None? ==> networkLog == old(networkLog)
      ensures Commands(networkLog) == Commands(old(networkLog)) && |networkLog| == |old(networkLog)|
      ensures OutputUpdate(text).Some? ==>
        forall i :: 0 <= i < |networkLog| - 1 ==> networkLog[i] == old(networkLog)[i]
      ensures OutputUpdate(text).Some? && |networkLog| > 0 ==>
        networkLog[|networkLog| - 1] == old(networkLog)[|networkLog| - 1].(
          status := OutputUpdate(text).value.0, responseTime := OutputUpdate(text).value.1)
      ensures commandHistory == old(commandHistory)
    {
      var update := OutputUpdate(text);
      if update.Some? {
        UpdateLastLogEntry(update.value.0, update.value.1);
      }
    }

    /** `clear_network_log`: the log empties; the history stays. */
    method ClearNetworkLog()
      modifies this
      ensures networkLog == [] && commandHistory == old(commandHistory)
    {
      networkLog := [];
    }
  }
}
