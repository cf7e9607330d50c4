/** The dependency sweep: healing stale worktrees with a frozen install and re-reading each one
    (scripts/deps-reconcile-runner.ts, scripts/deps-reconcile.ts, scripts/worktree-deps-status.ts). */
module Reconcile {
  import opened Text

  // ----------------------------------------------------------- the child's environment

  const VERIFY_KEY: string := "PNPM_CONFIG_VERIFY_DEPS_BEFORE_RUN"

  /** `lower` is `toLowerCase`, of which nothing is assumed. */
  type Lower = string -> string

  predicate Stripped(key: string, lower: Lower) {
    || "npm_" <= lower(key) || "pnpm_config_" <= lower(key)
    || lower(key) == "init_cwd" || lower(key) == "pnpm_script_src_dir"
  }

  type Source = seq<(string, Option<string>)>

  function Inherited(source: Source, lower: Lower): map<string, string> {
    if source == [] then map[]
    else
      var init, (key, value) := Inherited(source[..|source| - 1], lower), source[|source| - 1];
      if value.None? || Stripped(key, lower) then init else init[key := value.value]
  }

  function ProbeEnv(source: Source, lower: Lower): map<string, string> {
    Inherited(source, lower)[VERIFY_KEY := "error"]
  }

  method BuildProbeEnv(source: Source, lower: Lower) returns (env: map<string, string>)
    ensures env == ProbeEnv(source, lower)
  {
    hide Stripped, VERIFY_KEY;
    env := map[];
    for i := 0 to |source|
      invariant env == Inherited(source[..i], lower)
    {
      assert source[..i + 1][..i] == source[..i];
      var (key, value) := source[i];
      if value.None? { continue; }
      if Stripped(key, lower) { continue; }
      env := env[key := value.value];
    }
    assert source[..|source|] == source;
    env := env[VERIFY_KEY := "error"];
  }

  lemma {:induction false} InheritedAre(source: Source, lower: Lower, key: string)
    ensures key in Inherited(source, lower) <==>
              !Stripped(key, lower) && exists i | 0 <= i < |source| :: source[i].0 == key && source[i].1.Some?
    ensures key in Inherited(source, lower) ==> (key, Some(Inherited(source, lower)[key])) in source
  {
    hide Stripped;
    if source != [] {
      var init := source[..|source| - 1];
      InheritedAre(init, lower, key);
      assert forall i | 0 <= i < |init| :: init[i] == source[i];
      assert source == init + [source[|source| - 1]];
    }
  }

  /** The lower-cased names that configure pnpm or mark a nested run. */
  predicate OfNestedRun(name: string) {
    || (|name| >= 4 && name[..4] == "npm_")
    || (|name| >= 12 && name[..12] == "pnpm_config_")
    || name in {"init_cwd", "pnpm_script_src_dir"}
  }

  lemma StrippedNames(key: string, lower: Lower)
    ensures Stripped(key, lower) <==> OfNestedRun(lower(key))
  {
    assert |"npm_"| == 4 && |"pnpm_config_"| == 12;
  }

  /** The child's environment: the verify key forced to `error`, and beside it exactly the
      defined inherited variables that neither configure pnpm nor mark a nested run. */
  lemma EnvironmentIs(source: Source, lower: Lower, key: string)
    ensures var env := ProbeEnv(source, lower);
            if key == "PNPM_CONFIG_VERIFY_DEPS_BEFORE_RUN" then key in env && env[key] == "error"
            else
              && (key in env <==>
                    !OfNestedRun(lower(key)) && exists i | 0 <= i < |source| :: source[i].0 == key && source[i].1.Some?)
              && (key in env ==> (key, Some(env[key])) in source)
  {
    StrippedNames(key, lower);
    hide Stripped, OfNestedRun;
    InheritedAre(source, lower, key);
  }

  // ----------------------------------------------------------- reading a child's output

  /** What a line of output holds when it is JSON, as far as either reader looks at it. */
  datatype Field = Absent | Str(text: string) | OtherValue

  datatype Json = NotJson | Value(level: Field, hasErr: bool, code: Field, message: Field)

  type Parse = string -> Json

  function TrimmedLines(parts: seq<string>): (r: seq<string>)
    ensures |r| == |parts| && forall i | 0 <= i < |r| :: r[i] == Trim(parts[i])
  {
    if parts == [] then [] else TrimmedLines(parts[..|parts| - 1]) + [Trim(parts[|parts| - 1])]
  }

  function OutputLines(output: string): seq<string> {
    TrimmedLines(Split(output, NL))
  }

  datatype ErrorRecord = ErrorRecord(code: string, message: string)

  /** The schema's record: a level, an error code, and a message that is text if present. */
  function HealRecord(line: string, parse: Parse): Option<ErrorRecord> {
    if !("{" <= line) then None
    else
      var v := parse(line);
      if v.NotJson? || !v.level.Str? || !v.hasErr || !v.code.Str? || v.message.OtherValue? then None
      else Some(ErrorRecord(v.code.text, if v.message.Str? then v.message.text else v.code.text))
  }

  /** The probe's hand-narrowed record: an error with a code is enough. */
  function ProbeRecord(line: string, parse: Parse): Option<ErrorRecord> {
    if !("{" <= line) then None
    else
      var v := parse(line);
      if v.NotJson? || !v.hasErr || !v.code.Str? then None
      else Some(ErrorRecord(v.code.text, if v.message.Str? then v.message.text else v.code.text))
  }

  type Reader = (string, Parse) -> Option<ErrorRecord>

  function FirstRecord(lines: seq<string>, parse: Parse, read: Reader): Option<ErrorRecord> {
    if lines == [] then None
    else if read(lines[0], parse).Some? then read(lines[0], parse)
    else FirstRecord(lines[1..], parse, read)
  }

  method FindRecord(lines: seq<string>, parse: Parse, read: Reader) returns (r: Option<ErrorRecord>)
    ensures r == FirstRecord(lines, parse, read)
    ensures r.None? <==> forall i | 0 <= i < |lines| :: read(lines[i], parse).None?
    ensures r.Some? ==> exists i | 0 <= i < |lines| ::
              read(lines[i], parse) == r && forall j | 0 <= j < i :: read(lines[j], parse).None?
  {
    assert lines[0..] == lines;
    for i := 0 to |lines|
      invariant FirstRecord(lines, parse, read) == FirstRecord(lines[i..], parse, read)
      invariant forall j | 0 <= j < i :: read(lines[j], parse).None?
    {
      assert lines[i..][1..] == lines[i + 1..];
      r := read(lines[i], parse);
      if r.Some? { return; }
    }
    r := None;
  }

  function FirstWith(lines: seq<string>, test: string -> bool): (r: Option<string>)
    ensures r.Some? <==> exists i | 0 <= i < |lines| :: test(lines[i])
    ensures r.Some? ==> r.value in lines && test(r.value)
  {
    if lines == [] then None
    else if test(lines[0]) then Some(lines[0])
    else
      assert forall i | 1 <= i < |lines| :: lines[1..][i - 1] == lines[i];
      FirstWith(lines[1..], test)
  }

  const OUTDATED: string := "ERR_PNPM_OUTDATED_LOCKFILE"
  const VERIFY_CODE: string := "ERR_PNPM_VERIFY_DEPS_BEFORE_RUN"

  datatype HealSource = Ndjson | Prose | TimedOut | Unparseable

  datatype HealResult =
    | HealAttempted
    | Divergent(source: HealSource, reason: string)
    | HealFailed(source: HealSource, reason: string)

  function InterpretHealResult(exitCode: Option<int>, output: string, parse: Parse): HealResult {
    if exitCode == Some(0) then HealAttempted
    else if exitCode.None? then HealFailed(TimedOut, "heal timed out and was killed")
    else
      var lines := OutputLines(output);
      var record := FirstRecord(lines, parse, HealRecord);
      if record.Some? then
        if record.value.code == OUTDATED then Divergent(Ndjson, record.value.message)
        else HealFailed(Ndjson, record.value.message)
      else
        var prose := FirstWith(lines, line => Contains(line, OUTDATED));
        if prose.Some? then Divergent(Prose, prose.value)
        else
          var first := FirstWith(lines, line => line != "");
          HealFailed(Unparseable, if first.Some? then first.value else "heal failed with no diagnostic output")
  }

  datatype DepsProbe = DepsOk | DepsStale(reason: string) | ToolchainBlocked(reason: string)

  function InterpretDepsProbe(exitCode: Option<int>, output: string, parse: Parse): DepsProbe {
    if exitCode == Some(0) then DepsOk
    else
      var lines := OutputLines(output);
      var record := FirstRecord(lines, parse, ProbeRecord);
      if record.Some? then
        if record.value.code == VERIFY_CODE then DepsStale(record.value.message)
        else ToolchainBlocked(record.value.message)
      else
        var tag := "[" + VERIFY_CODE + "]";
        var verify := FirstWith(lines, line => tag <= line);
        if verify.Some? then DepsStale(Trim(verify.value[|tag|..]))
        else
          var toolchain := FirstWith(lines, line => "[ERROR]" <= line);
          if toolchain.Some? then ToolchainBlocked(Trim(toolchain.value[|"[ERROR]"|..]))
          else
            var first := FirstWith(lines, line => line != "");
            DepsStale(if first.Some? then first.value else "probe failed with no diagnostic output")
  }

  function JoinStreams(stderr: Option<string>, stdout: Option<string>): string {
    var e, o := if stderr.Some? then stderr.value else "", if stdout.Some? then stdout.value else "";
    if e == "" then o else if o == "" then e else e + NL + o
  }

  /** Both readers fail closed: only exit 0 is a pass, and a killed install has failed. */
  lemma FailsClosed(exitCode: Option<int>, output: string, parse: Parse)
    ensures InterpretHealResult(exitCode, output, parse).HealAttempted? <==> exitCode == Some(0)
    ensures InterpretDepsProbe(exitCode, output, parse).DepsOk? <==> exitCode == Some(0)
    ensures exitCode.None? ==>
              InterpretHealResult(exitCode, output, parse) == HealFailed(TimedOut, "heal timed out and was killed")
  {
    hide OutputLines, Contains, OUTDATED, VERIFY_CODE;
  }

  /** A line that reads as an install's error record. */
  predicate IsHealRecord(line: string, parse: Parse) {
    && |line| >= 1 && line[0] == '{'
    && var v := parse(line);
    v.Value? && v.level.Str? && v.hasErr && v.code.Str? && !v.message.OtherValue?
  }

  /** A line that reads as a probe's error record. */
  predicate IsProbeRecord(line: string, parse: Parse) {
    |line| >= 1 && line[0] == '{' && var v := parse(line); v.Value? && v.hasErr && v.code.Str?
  }

  /** The lines of an output, each trimmed. */
  predicate LinesOf(output: string, lines: seq<string>) {
    |lines| == |Split(output, "\n")| && forall i | 0 <= i < |lines| :: lines[i] == Trim(Split(output, "\n")[i])
  }

  lemma OutputLinesAre(output: string)
    ensures LinesOf(output, OutputLines(output))
  {
    hide Trim, Split;
  }

  /** Lines that blame the lockfile: the first error record carries the code, or no line is an
      error record and some line mentions it. */
  predicate NamesOutdated(lines: seq<string>, parse: Parse) {
    || (exists i | 0 <= i < |lines| ::
          && IsHealRecord(lines[i], parse) && (forall j | 0 <= j < i :: !IsHealRecord(lines[j], parse))
          && parse(lines[i]).code == Str("ERR_PNPM_OUTDATED_LOCKFILE"))
    || ((forall i | 0 <= i < |lines| :: !IsHealRecord(lines[i], parse))
        && exists i | 0 <= i < |lines| :: Contains(lines[i], "ERR_PNPM_OUTDATED_LOCKFILE"))
  }

  predicate SomeOpens(lines: seq<string>, tag: string) {
    exists i | 0 <= i < |lines| :: tag <= lines[i]
  }

  /** Lines that blame drift: the first error record carries the verify code, or no line is an
      error record and some line opens with the verify tag or none with the error tag. */
  predicate NamesDrift(lines: seq<string>, parse: Parse) {
    || (exists i | 0 <= i < |lines| ::
          && IsProbeRecord(lines[i], parse) && (forall j | 0 <= j < i :: !IsProbeRecord(lines[j], parse))
          && parse(lines[i]).code == Str("ERR_PNPM_VERIFY_DEPS_BEFORE_RUN"))
    || ((forall i | 0 <= i < |lines| :: !IsProbeRecord(lines[i], parse))
        && (SomeOpens(lines, "[" + "ERR_PNPM_VERIFY_DEPS_BEFORE_RUN" + "]") || !SomeOpens(lines, "[ERROR]")))
  }

  lemma ReadersMean(line: string, parse: Parse)
    ensures IsHealRecord(line, parse) <==> HealRecord(line, parse).Some?
    ensures IsProbeRecord(line, parse) <==> ProbeRecord(line, parse).Some?
    ensures IsHealRecord(line, parse) ==>
              parse(line).Value? && Str(HealRecord(line, parse).value.code) == parse(line).code
    ensures IsProbeRecord(line, parse) ==>
              parse(line).Value? && Str(ProbeRecord(line, parse).value.code) == parse(line).code
  {
    assert |"{"| == 1 && "{"[0] == '{';
  }

  /** Where the first record is; the number of lines where there is none. */
  lemma {:induction false} RecordAt(lines: seq<string>, parse: Parse, read: Reader) returns (i: nat)
    ensures i <= |lines| && forall j | 0 <= j < i :: read(lines[j], parse).None?
    ensures FirstRecord(lines, parse, read) == if i < |lines| then read(lines[i], parse) else None
    ensures i < |lines| ==> read(lines[i], parse).Some?
  {
    i := 0;
    if lines != [] && read(lines[0], parse).None? {
      i := RecordAt(lines[1..], parse, read);
      assert forall j | 1 <= j < |lines| :: lines[1..][j - 1] == lines[j];
      i := i + 1;
    }
  }

  lemma OutdatedByRecord(lines: seq<string>, parse: Parse)
    ensures var record := FirstRecord(lines, parse, HealRecord);
            NamesOutdated(lines, parse) <==>
              if record.Some? then record.value.code == OUTDATED
              else exists i | 0 <= i < |lines| :: Contains(lines[i], OUTDATED)
  {
    var at := RecordAt(lines, parse, HealRecord);
    hide HealRecord, FirstRecord, Contains, IsHealRecord;
    forall i | 0 <= i < |lines|
      ensures IsHealRecord(lines[i], parse) <==> HealRecord(lines[i], parse).Some?
      ensures IsHealRecord(lines[i], parse) ==>
                parse(lines[i]).Value? && Str(HealRecord(lines[i], parse).value.code) == parse(lines[i]).code
    {
      ReadersMean(lines[i], parse);
    }
  }

  lemma DriftByRecord(lines: seq<string>, parse: Parse)
    ensures var record := FirstRecord(lines, parse, ProbeRecord);
            NamesDrift(lines, parse) <==>
              if record.Some? then record.value.code == VERIFY_CODE
              else SomeOpens(lines, "[" + VERIFY_CODE + "]") || !SomeOpens(lines, "[ERROR]")
  {
    var at := RecordAt(lines, parse, ProbeRecord);
    hide ProbeRecord, FirstRecord, IsProbeRecord, SomeOpens;
    forall i | 0 <= i < |lines|
      ensures IsProbeRecord(lines[i], parse) <==> ProbeRecord(lines[i], parse).Some?
      ensures IsProbeRecord(lines[i], parse) ==>
                parse(lines[i]).Value? && Str(ProbeRecord(lines[i], parse).value.code) == parse(lines[i]).code
    {
      ReadersMean(lines[i], parse);
    }
  }

  /** A failed install has met a divergent lockfile exactly when its lines blame the lockfile. */
  lemma DivergentMeans(code: int, output: string, lines: seq<string>, parse: Parse)
    requires code != 0 && LinesOf(output, lines)
    ensures InterpretHealResult(Some(code), output, parse).Divergent? <==> NamesOutdated(lines, parse)
  {
    SameLines(output, lines);
    OutdatedByRecord(lines, parse);
    hide OutputLines, Contains, OUTDATED, HealRecord, FirstRecord, NamesOutdated;
  }

  /** A failed probe is drift exactly when its lines blame drift. Anything else is a toolchain
      that cannot run, which the sweep leaves alone. */
  lemma ProbeMeans(exitCode: Option<int>, output: string, lines: seq<string>, parse: Parse)
    requires exitCode != Some(0) && LinesOf(output, lines)
    ensures InterpretDepsProbe(exitCode, output, parse).DepsStale? <==> NamesDrift(lines, parse)
  {
    SameLines(output, lines);
    DriftByRecord(lines, parse);
    hide OutputLines, VERIFY_CODE, ProbeRecord, FirstRecord, NamesDrift;
  }

  lemma SameLines(output: string, lines: seq<string>)
    requires LinesOf(output, lines)
    ensures lines == OutputLines(output)
  {
    hide Trim, Split;
    OutputLinesAre(output);
  }

  // -------------------------------------------------------------------- the sweep

  datatype Target = Target(path: string, probe: DepsProbe)

  predicate NeedsHeal(t: Target) {
    t.probe.DepsStale?
  }

  datatype Purpose = Heal | Reread

  /** One spawn. Heal and re-read run the same frozen install. */
  datatype Spawn = Spawn(cwd: string, purpose: Purpose, env: map<string, string>, timeout: int)

  datatype Reply = Reply(status: Option<int>, stdout: Option<string>, stderr: Option<string>)

  /** What the latest spawn yields, given every spawn so far. */
  type Port = seq<Spawn> -> Reply

  datatype Setup = Setup(execute: bool, env: map<string, string>, timeout: int, parse: Parse)

  datatype Outcome = Skipped | Planned | Reconciled | DivergentTree | Failed

  function Output(r: Reply): string {
    JoinStreams(r.stderr, r.stdout)
  }

  /** The spawns one target causes after `before`, and how it ends. */
  function Handle(t: Target, port: Port, setup: Setup, before: seq<Spawn>): (seq<Spawn>, Outcome) {
    if !NeedsHeal(t) then ([], Skipped)
    else if !setup.execute then ([], Planned)
    else
      var heal := [Spawn(t.path, Heal, setup.env, setup.timeout)];
      var first := port(before + heal);
      match InterpretHealResult(first.status, Output(first), setup.parse)
      case Divergent(_, _) => (heal, DivergentTree)
      case HealFailed(_, _) => (heal, Failed)
      case HealAttempted =>
        var both := heal + [Spawn(t.path, Reread, setup.env, setup.timeout)];
        var second := port(before + both);
        (both, if InterpretDepsProbe(second.status, Output(second), setup.parse).DepsOk? then Reconciled else Failed)
  }

  function SpawnsOf(targets: seq<Target>, port: Port, setup: Setup, n: nat): seq<Spawn>
    requires n <= |targets|
  {
    if n == 0 then []
    else
      var before := SpawnsOf(targets, port, setup, n - 1);
      before + Handle(targets[n - 1], port, setup, before).0
  }

  function OutcomeOf(targets: seq<Target>, port: Port, setup: Setup, i: nat): Outcome
    requires i < |targets|
  {
    Handle(targets[i], port, setup, SpawnsOf(targets, port, setup, i)).1
  }

  function Tally(targets: seq<Target>, port: Port, setup: Setup, o: Outcome, n: nat): nat
    requires n <= |targets|
  {
    if n == 0 then 0
    else Tally(targets, port, setup, o, n - 1) + if OutcomeOf(targets, port, setup, n - 1) == o then 1 else 0
  }

  datatype Summary = Summary(reconciled: nat, divergent: nat, failed: nat, skipped: nat)

  function SummaryOf(targets: seq<Target>, port: Port, setup: Setup, n: nat): Summary
    requires n <= |targets|
  {
    Summary(Tally(targets, port, setup, Reconciled, n), Tally(targets, port, setup, DivergentTree, n),
            Tally(targets, port, setup, Failed, n), Tally(targets, port, setup, Skipped, n))
  }

  function ReconcileExitCode(s: Summary): int {
    if s.failed > 0 then 3 else if s.divergent > 0 then 1 else 0
  }

  class Recorder {
    var spawns: seq<Spawn>
    const port: Port

    constructor (port: Port)
      ensures spawns == [] && this.port == port
    {
      spawns := [];
      this.port := port;
    }

    method Run(s: Spawn) returns (r: Reply)
      modifies this
      ensures spawns == old(spawns) + [s] && r == port(spawns)
    {
      spawns := spawns + [s];
      r := port(spawns);
    }

    method RunReconcile(targets: seq<Target>, execute: bool, source: Source, lower: Lower, timeout: int, parse: Parse)
      returns (planned: nat, summary: Summary, exitCode: int)
      requires spawns == []
      modifies this
      ensures var setup := Setup(execute, ProbeEnv(source, lower), timeout, parse);
              && spawns == SpawnsOf(targets, port, setup, |targets|)
              && summary == SummaryOf(targets, port, setup, |targets|) && exitCode == ReconcileExitCode(summary)
              && planned == |targets| - summary.skipped
    {
      hide InterpretHealResult, InterpretDepsProbe, ProbeEnv, Output;
      summary := Summary(0, 0, 0, 0);
      planned := 0;
      var env := BuildProbeEnv(source, lower);
      ghost var setup := Setup(execute, env, timeout, parse);
      for i := 0 to |targets|
        invariant spawns == SpawnsOf(targets, port, setup, i)
        invariant summary == SummaryOf(targets, port, setup, i)
        invariant planned == i - summary.skipped
      {
        var t := targets[i];
        assert spawns + [] == spawns;
        if !NeedsHeal(t) {
          summary := summary.(skipped := summary.skipped + 1);
          continue;
        }
        planned := planned + 1;
        if !execute { continue; }
        ghost var before := spawns;
        var outcome := Run(Spawn(t.path, Heal, env, timeout));
        var result := InterpretHealResult(outcome.status, Output(outcome), parse);
        if result.HealAttempted? {
          var after := Run(Spawn(t.path, Reread, env, timeout));
          assert spawns == before + ([Spawn(t.path, Heal, env, timeout)] + [Spawn(t.path, Reread, env, timeout)]);
          if InterpretDepsProbe(after.status, Output(after), parse).DepsOk? {
            summary := summary.(reconciled := summary.reconciled + 1);
          } else {
            summary := summary.(failed := summary.failed + 1);
          }
          continue;
        }
        if result.Divergent? {
          summary := summary.(divergent := summary.divergent + 1);
          continue;
        }
        summary := summary.(failed := summary.failed + 1);
      }
      exitCode := ReconcileExitCode(summary);
    }
  }

  // ------------------------------------------------------------------- main results

  lemma HandleShape(t: Target, port: Port, setup: Setup, before: seq<Spawn>)
    ensures var (spawns, o) := Handle(t, port, setup, before);
            && |spawns| <= 2
            && (spawns != [] <==> setup.execute && NeedsHeal(t))
            && (forall i | 0 <= i < |spawns| ::
                  spawns[i] == Spawn(t.path, if i == 0 then Heal else Reread, setup.env, setup.timeout))
            && (|spawns| == 2 <==> spawns != [] && port(before + spawns[..1]).status == Some(0))
            && (o == Reconciled <==> |spawns| == 2 && port(before + spawns).status == Some(0))
            && (o == Planned ==> !setup.execute)
            && (!setup.execute ==> o in {Skipped, Planned})
            && (o == Skipped <==> !NeedsHeal(t))
  {
    hide InterpretHealResult, InterpretDepsProbe, Output;
    var heal := [Spawn(t.path, Heal, setup.env, setup.timeout)];
    var both := heal + [Spawn(t.path, Reread, setup.env, setup.timeout)];
    var first, second := port(before + heal), port(before + both);
    FailsClosed(first.status, Output(first), setup.parse);
    FailsClosed(second.status, Output(second), setup.parse);
    assert both[..1] == heal && heal[..1] == heal;
  }

  /** How a target ends. Only a stale one is touched, and only with consent. It then counts as
      divergent exactly where its heal exits with an error and lines that blame the lockfile, as
      failed exactly where the heal fails otherwise, by a kill included, or where it succeeds and
      the re-read does not. */
  lemma OutcomeMeans(t: Target, port: Port, setup: Setup, before: seq<Spawn>, lines: seq<string>)
    requires var log := before + Handle(t, port, setup, before).0;
             |log| > |before| ==> LinesOf(Output(port(log[..|before| + 1])), lines)
    ensures var (spawns, o) := Handle(t, port, setup, before);
            && (o == Skipped <==> !t.probe.DepsStale?)
            && (o == Planned <==> t.probe.DepsStale? && !setup.execute)
            && (spawns != [] <==> t.probe.DepsStale? && setup.execute)
            && (spawns != [] ==>
                  var heal, last := port((before + spawns)[..|before| + 1]), port(before + spawns);
                  && (o == DivergentTree <==>
                        heal.status.Some? && heal.status.value != 0 && NamesOutdated(lines, setup.parse))
                  && (o == Failed <==>
                        || heal.status.None?
                        || (heal.status.value != 0 && !NamesOutdated(lines, setup.parse))
                        || (heal.status.value == 0 && last.status != Some(0)))
                  && (o == Reconciled <==> heal.status == Some(0) && last.status == Some(0)))
  {
    HandleShape(t, port, setup, before);
    hide InterpretDepsProbe, Output, NamesOutdated, LinesOf;
    var log := before + Handle(t, port, setup, before).0;
    if t.probe.DepsStale? && setup.execute {
      var spawn := [Spawn(t.path, Heal, setup.env, setup.timeout)];
      var heal := port(before + spawn);
      assert log[..|before| + 1] == before + spawn;
      assert Handle(t, port, setup, before).0[..1] == spawn;
      FailsClosed(heal.status, Output(heal), setup.parse);
      if heal.status.Some? && heal.status.value != 0 {
        DivergentMeans(heal.status.value, Output(heal), lines, setup.parse);
      }
    }
  }

  /** What the readers get to see: the lines of stderr, then the lines of stdout. */
  lemma OutputIsBoth(r: Reply, stderr: string, stdout: string)
    requires r.stderr == Some(stderr) || (r.stderr.None? && stderr == "")
    requires r.stdout == Some(stdout) || (r.stdout.None? && stdout == "")
    ensures stderr == "" ==> Output(r) == stdout
    ensures stdout == "" ==> Output(r) == stderr
    ensures stderr != "" && stdout != "" ==> Split(Output(r), "\n") == Split(stderr, "\n") + Split(stdout, "\n")
  {
    hide Split;
    SplitCat(stderr, '\n', stdout);
    assert NL == ['\n'];
  }

  lemma {:induction false} SpawnsGrow(targets: seq<Target>, port: Port, setup: Setup, m: nat, n: nat)
    requires m <= n <= |targets|
    ensures SpawnsOf(targets, port, setup, m) <= SpawnsOf(targets, port, setup, n)
  {
    hide Handle;
    if m < n { SpawnsGrow(targets, port, setup, m, n - 1); }
  }

  /** A target counts as reconciled exactly when its heal exited 0 and the spawn that follows
      it at once, in the same directory, exited 0 as well. */
  lemma ReconciledMeansReread(targets: seq<Target>, port: Port, setup: Setup, k: nat)
    requires k < |targets|
    ensures var log, at := SpawnsOf(targets, port, setup, |targets|), |SpawnsOf(targets, port, setup, k)|;
            OutcomeOf(targets, port, setup, k) == Reconciled <==>
              && setup.execute && NeedsHeal(targets[k])
              && |log| >= at + 2
              && log[at] == Spawn(targets[k].path, Heal, setup.env, setup.timeout)
              && log[at + 1] == Spawn(targets[k].path, Reread, setup.env, setup.timeout)
              && port(log[..at + 1]).status == Some(0) && port(log[..at + 2]).status == Some(0)
  {
    hide Handle, SpawnsOf, NeedsHeal;
    NextSpawns(targets, port, setup, k);
    ReconciledBlock(targets[k], port, setup,
                    SpawnsOf(targets, port, setup, k), SpawnsOf(targets, port, setup, |targets|));
  }

  lemma NextSpawns(targets: seq<Target>, port: Port, setup: Setup, k: nat)
    requires k < |targets|
    ensures SpawnsOf(targets, port, setup, k) + Handle(targets[k], port, setup, SpawnsOf(targets, port, setup, k)).0
            <= SpawnsOf(targets, port, setup, |targets|)
  {
    hide Handle;
    SpawnsGrow(targets, port, setup, k + 1, |targets|);
  }

  lemma ReconciledBlock(t: Target, port: Port, setup: Setup, before: seq<Spawn>, log: seq<Spawn>)
    requires before + Handle(t, port, setup, before).0 <= log
    ensures var at := |before|;
            Handle(t, port, setup, before).1 == Reconciled <==>
              && setup.execute && NeedsHeal(t)
              && |log| >= at + 2
              && log[at] == Spawn(t.path, Heal, setup.env, setup.timeout)
              && log[at + 1] == Spawn(t.path, Reread, setup.env, setup.timeout)
              && port(log[..at + 1]).status == Some(0) && port(log[..at + 2]).status == Some(0)
  {
    HandleShape(t, port, setup, before);
    hide Handle, NeedsHeal;
    BlockStands(log, before, Handle(t, port, setup, before).0);
  }

  lemma BlockStands(log: seq<Spawn>, before: seq<Spawn>, block: seq<Spawn>)
    requires before + block <= log
    ensures |block| >= 1 ==> log[|before|] == block[0] && log[..|before| + 1] == before + block[..1]
    ensures |block| >= 2 ==> log[|before| + 1] == block[1]
    ensures |block| == 2 ==> log[..|before| + 2] == before + block
  {
  }

  lemma {:induction false} DryRunNeverSpawns(targets: seq<Target>, port: Port, setup: Setup, n: nat)
    requires n <= |targets| && !setup.execute
    ensures SpawnsOf(targets, port, setup, n) == []
  {
    if n > 0 { DryRunNeverSpawns(targets, port, setup, n - 1); }
  }

  /** Every spawn of a run carries the sanitised environment and the bound. */
  lemma {:induction false} EverySpawnIsSanitised(targets: seq<Target>, port: Port, setup: Setup, n: nat, i: nat)
    requires n <= |targets| && i < |SpawnsOf(targets, port, setup, n)|
    ensures SpawnsOf(targets, port, setup, n)[i].env == setup.env
    ensures SpawnsOf(targets, port, setup, n)[i].timeout == setup.timeout
  {
    hide Handle;
    var before := SpawnsOf(targets, port, setup, n - 1);
    if i < |before| {
      EverySpawnIsSanitised(targets, port, setup, n - 1, i);
    } else {
      HandleShape(targets[n - 1], port, setup, before);
    }
  }

  /** One worktree's failure never keeps another from being healed: with consent, every stale
      target is spawned for, in order. */
  lemma EveryStaleTargetIsHealed(targets: seq<Target>, port: Port, setup: Setup, k: nat)
    requires k < |targets| && setup.execute
    ensures var log, at := SpawnsOf(targets, port, setup, |targets|), |SpawnsOf(targets, port, setup, k)|;
            NeedsHeal(targets[k]) ==>
              |log| > at && log[at] == Spawn(targets[k].path, Heal, setup.env, setup.timeout)
  {
    hide Handle, SpawnsOf, NeedsHeal;
    var before := SpawnsOf(targets, port, setup, k);
    NextSpawns(targets, port, setup, k);
    HandleShape(targets[k], port, setup, before);
    BlockStands(SpawnsOf(targets, port, setup, |targets|), before, Handle(targets[k], port, setup, before).0);
  }

  lemma {:induction false} CountersSum(targets: seq<Target>, port: Port, setup: Setup, n: nat)
    requires n <= |targets|
    ensures var s := SummaryOf(targets, port, setup, n);
            && (setup.execute ==> s.reconciled + s.divergent + s.failed + s.skipped == n)
            && (!setup.execute ==> s.reconciled == s.divergent == s.failed == 0)
  {
    hide Handle;
    if n > 0 {
      CountersSum(targets, port, setup, n - 1);
      HandleShape(targets[n - 1], port, setup, SpawnsOf(targets, port, setup, n - 1));
    }
  }

  lemma {:induction false} TallyPositive(targets: seq<Target>, port: Port, setup: Setup, o: Outcome, n: nat)
    requires n <= |targets|
    ensures Tally(targets, port, setup, o, n) > 0 <==> exists i: nat | i < n :: OutcomeOf(targets, port, setup, i) == o
  {
    hide OutcomeOf;
    if n > 0 { TallyPositive(targets, port, setup, o, n - 1); }
  }

  /** Exit 0 exactly when no target failed and none diverged; a failure outranks divergence. */
  lemma ExitNamesTheWorst(targets: seq<Target>, port: Port, setup: Setup)
    ensures var code := ReconcileExitCode(SummaryOf(targets, port, setup, |targets|));
            && (code == 3 <==> exists i: nat | i < |targets| :: OutcomeOf(targets, port, setup, i) == Failed)
            && (code == 0 <==> forall i: nat | i < |targets| ::
                  OutcomeOf(targets, port, setup, i) in {Skipped, Planned, Reconciled})
            && code in {0, 1, 3}
  {
    hide OutcomeOf;
    TallyPositive(targets, port, setup, Failed, |targets|);
    TallyPositive(targets, port, setup, DivergentTree, |targets|);
  }
}
