/**
 * The autopilot service: its status decision, the safety check on planned maneuver
 * nodes, the order in which executing nodes is set off, and the console writes of its
 * commands. The maneuver planner and node executor are kRPC objects: what they report
 * comes in as parameters, and the executions, monitor starts and autowarp setting are
 * recorded as fields.
 */
module Autopilot {
  import opened Wrappers
  import opened Text
  import opened ConsoleApp

  /** `AutopilotStatus`. */
  datatype AutopilotStatus = IDLE | ACTIVE | OFF {
    function Value(): string
    {
      match this
      case IDLE => "IDLE"
      case ACTIVE => "ACTIVE"
      case OFF => "OFF"
    }
  }

  /** A maneuver node: when it fires and the periapsis altitude of the orbit it leads to. */
  datatype Node = Node(ut: real, periapsisAltitude: real, body: string)

  /** 50 km above the surface of Enceladus. */
  const SafeAltitudeThreshold: real := 50000.0

  /** `check_autopilot_status`: OFF while the executor is disabled, else ACTIVE under thrust, else IDLE. */
  function CheckStatus(enabled: bool, thrust: real): (r: AutopilotStatus)
    ensures r == OFF <==> !enabled
    ensures r == ACTIVE <==> enabled && thrust > 0.0
    ensures r == IDLE <==> enabled && thrust <= 0.0
  {
    if enabled then (if thrust > 0.0 then ACTIVE else IDLE) else OFF
  }

  /** The position of the first node whose orbit dips below the threshold, if any. */
  function FirstUnsafe(nodes: seq<Node>): (r: Option<nat>)
    ensures r.None? <==> forall k :: 0 <= k < |nodes| ==> nodes[k].periapsisAltitude >= SafeAltitudeThreshold
    ensures r.Some? ==> r.value < |nodes| && nodes[r.value].periapsisAltitude < SafeAltitudeThreshold
    ensures r.Some? ==> forall k :: 0 <= k < r.value ==> nodes[k].periapsisAltitude >= SafeAltitudeThreshold
  {
    if |nodes| == 0 then None
    else if nodes[0].periapsisAltitude < SafeAltitudeThreshold then Some(0)
    else
      match FirstUnsafe(nodes[1..])
      case None => None
      case Some(k) => Some(k + 1)
  }

  /** A planner failure is reported by the first line of its message only. */
  function PlannerError(message: string): (r: string)
    ensures '\n' !in r && StartsWith(message, r)
    ensures r == message <==> '\n' !in message
  {
    FirstLine(message)
  }

  /** The first line of a message is its text before the first line break. */
  lemma PlannerErrorIsFirstLine(message: string)
    ensures PlannerError(message) == Split(message, '\n')[0]
  {
    FirstLineIsHeadOfSplit(message);
  }

  /**
   * `operation_apoapsis`, `operation_periapsis`, `operation_inclination` and
   * `operation_circularize` share one shape: `planned` is what `make_nodes` produced or
   * the message it raised, `warning` the planner's `error_message`. The nodes come back
   * unchanged; a failure becomes ValueError carrying the message's first line; a
   * non-empty warning is written out first.
   */
  function Operation(planned: Result<seq<Node>, string>, warning: string): (r: (Result<seq<Node>, string>, seq<Write>))
    ensures planned.Err? ==> r.0 == Err(PlannerError(planned.error)) && r.1 == []
    ensures planned.Ok? ==> r.0 == planned
    ensures planned.Ok? ==> r.1 == (if warning != "" then [Stdout(warning, false)] else [])
  {
    match planned
    case Err(e) => (Err(PlannerError(e)), [])
    case Ok(nodes) => (Ok(nodes), if warning != "" then [Stdout(warning, false)] else [])
  }

  /**
   * `do_operation_*`: an error is written to stderr as "Error: <first line>"; otherwise a
   * timestamped heading and one write per node, in node order, after any warning.
   */
  function DoOperation(planned: Result<seq<Node>, string>, warning: string, render: Node -> string): (writes: seq<Write>)
    ensures planned.Err? ==> writes == [Stderr("Error: " + PlannerError(planned.error))]
    ensures planned.Ok? ==> var w := Operation(planned, warning).1;
      |writes| == |w| + 1 + |planned.value|
      && writes[..|w|] == w
      && writes[|w|] == Stdout("The following nodes were generated:", true)
      && forall k :: 0 <= k < |planned.value| ==> writes[|w| + 1 + k] == Stdout(render(planned.value[k]), false)
  {
    match Operation(planned, warning)
    case (Err(e), _) => [Stderr("Error: " + e)]
    case (Ok(nodes), w) =>
      w + [Stdout("The following nodes were generated:", true)]
      + seq(|nodes|, k requires 0 <= k < |nodes| => Stdout(render(nodes[k]), false))
  }

  /** The first poll that reads OFF, if any. */
  function FirstOff(readings: seq<(bool, real)>): (r: Option<nat>)
    ensures r.None? <==> forall k :: 0 <= k < |readings| ==> readings[k].0
    ensures r.Some? ==> r.value < |readings| && !readings[r.value].0
    ensures r.Some? ==> forall k :: 0 <= k < r.value ==> readings[k].0
  {
    if |readings| == 0 then None
    else if !readings[0].0 then Some(0)
    else
      match FirstOff(readings[1..])
      case None => None
      case Some(k) => Some(k + 1)
  }

  const CompletionAlert: string := "Autopilot has completed execution of all nodes"

  /**
   * `AutopilotService`: the node executor's `enabled` flag and `autowarp` setting, the
   * vessel's thrust and maneuver nodes, how often `execute_all_nodes` was called and a
   * monitor started, and the console writes made.
   */
  class AutopilotService {
    var enabled: bool
    var autowarp: bool
    var thrust: real
    var nodes: seq<Node>
    var executions: nat
    var monitorsStarted: nat
    var writes: seq<Write>

    constructor (enabled: bool, thrust: real, nodes: seq<Node>)
      ensures this.enabled == enabled && this.thrust == thrust && this.nodes == nodes
      ensures !autowarp && executions == 0 && monitorsStarted == 0 && writes == []
    {
      this.enabled := enabled;
      this.thrust := thrust;
      this.nodes := nodes;
      autowarp := false;
      executions := 0;
      monitorsStarted := 0;
      writes := [];
    }

    /** `check_autopilot_status` on the current readings. */
    function Status(): AutopilotStatus
      reads this
    {
      CheckStatus(enabled, thrust)
    }

    /**
     * `validate_nodes`: passes when every node keeps the threshold, otherwise fails on
     * the first node in list order that does not.
     */
    method ValidateNodes() returns (r: Result<(), Node>)
      ensures FirstUnsafe(nodes).None? ==> r.Ok?
      ensures FirstUnsafe(nodes).Some? ==> r == Err(nodes[FirstUnsafe(nodes).value])
    {
      var i := 0;
      while i < |nodes|
        invariant 0 <= i <= |nodes|
        invariant forall k :: 0 <= k < i ==> nodes[k].periapsisAltitude >= SafeAltitudeThreshold
      {
        if nodes[i].periapsisAltitude < SafeAltitudeThreshold {
          return Err(nodes[i]);
        }
        i := i + 1;
      }
      return Ok(());
    }

    /**
     * `execute_maneuver_nodes`: autowarp is switched on, then the nodes are validated;
     * only when they pass are they executed and a monitor started.
     */
    method ExecuteManeuverNodes() returns (r: Result<(), Node>)
      modifies this
      ensures autowarp && enabled == old(enabled) && thrust == old(thrust) && nodes == old(nodes)
      ensures writes == old(writes)
      ensures FirstUnsafe(nodes).Some? ==>
        r == Err(nodes[FirstUnsafe(nodes).value])
        && executions == old(executions) && monitorsStarted == old(monitorsStarted)
      ensures FirstUnsafe(nodes).None? ==>
        r.Ok? && executions == old(executions) + 1 && monitorsStarted == old(monitorsStarted) + 1
    {
      autowarp := true;
      r := ValidateNodes();
      if r.Err? {
        return;
      }
      executions := executions + 1;
      monitorsStarted := monitorsStarted + 1;
    }

    /** `do_execute_maneuver_nodes`: a refused plan writes nothing; otherwise the node count is announced. */
    method DoExecuteManeuverNodes() returns (r: Result<(), Node>)
      modifies this
      ensures nodes == old(nodes) && autowarp
      ensures FirstUnsafe(nodes).Some? ==> r.Err? && writes == old(writes) && executions == old(executions)
      ensures FirstUnsafe(nodes).None? ==> r.Ok? && executions == old(executions) + 1 && writes == old(writes) + [Stdout(
        "Executing " + IntToString(|nodes|)
        + " maneuver node(s). Notification will be raised upon completion of all scheduled maneuvers.", true)]
    {
      r := ExecuteManeuverNodes();
      if r.Err? {
        return;
      }
      writes := writes + [Stdout(
        "Executing " + IntToString(|nodes|)
        + " maneuver node(s). Notification will be raised upon completion of all scheduled maneuvers.", true)];
    }

    /**
     * `do_check_autopilot_status`: the status line alone when OFF; otherwise also the
     * number of nodes after the current one and the current node. With no node left the
     * lookup of `nodes[0]` fails (IndexError) and nothing is written.
     */
    method DoCheckAutopilotStatus(render: Node -> string) returns (r: Result<(), string>)
      modifies this
      ensures nodes == old(nodes) && enabled == old(enabled) && thrust == old(thrust)
      ensures Status() == OFF ==> r.Ok? && writes == old(writes) + [Stdout("Autopilot Status: OFF", true)]
      ensures Status() != OFF && |nodes| == 0 ==> r == Err("IndexError") && writes == old(writes)
      ensures Status() != OFF && |nodes| > 0 ==> r.Ok? && writes == old(writes) + [Stdout(
        "Autopilot Status: " + Status().Value() + "\nCurrent Node (" + IntToString(|nodes| - 1)
        + " remaining): " + render(nodes[0]), true)]
    {
      var status := CheckStatus(enabled, thrust);
      var summary;
      if status != OFF {
        if |nodes| == 0 {
          return Err("IndexError");
        }
        summary := "Autopilot Status: " + status.Value() + "\nCurrent Node (" + IntToString(|nodes| - 1)
          + " remaining): " + render(nodes[0]);
      } else {
        summary := "Autopilot Status: " + status.Value();
        assert summary == "Autopilot Status: OFF";
      }
      writes := writes + [Stdout(summary, true)];
      r := Ok(());
    }

    /** `do_remove_nodes`: the count reported is the one taken before the nodes are removed. */
    method DoRemoveNodes()
      modifies this
      ensures nodes == []
      ensures writes == old(writes) + [Stdout("Removed " + IntToString(|old(nodes)|) + " nodes", false)]
      ensures enabled == old(enabled) && thrust == old(thrust) && executions == old(executions)
    {
      var nodeCount := |nodes|;
      nodes := [];
      writes := writes + [Stdout("Removed " + IntToString(nodeCount) + " nodes", false)];
    }

    /**
     * `monitor_autopilot_status`: polls the status, one reading of (enabled, thrust) per
     * poll, until it reads OFF, and only then sends the completion alert. `polls` is the
     * number of readings consumed; readings that never read OFF send nothing.
     */
    method MonitorAutopilotStatus(readings: seq<(bool, real)>) returns (polls: nat)
      modifies this
      ensures nodes == old(nodes) && executions == old(executions)
      ensures FirstOff(readings).None? ==> polls == |readings| && writes == old(writes)
      ensures FirstOff(readings).Some? ==>
        polls == FirstOff(readings).value + 1
        && writes == old(writes) + [Alert(CompletionAlert)]
        && !enabled && Status() == OFF
    {
      polls := 0;
      while polls < |readings|
        invariant 0 <= polls <= |readings|
        invariant forall k :: 0 <= k < polls ==> readings[k].0
        invariant nodes == old(nodes) && executions == old(executions) && writes == old(writes)
      {
        enabled, thrust := readings[polls].0, readings[polls].1;
        polls := polls + 1;
        if CheckStatus(enabled, thrust) == OFF {
          writes := writes + [Alert(CompletionAlert)];
          return;
        }
      }
    }
  }
}
