/**
 * The spacecraft console: it buffers what commands write, and answers the
 * controller's messages with the drained buffer over one channel.
 */
module ConsoleApp {
  import opened Wrappers
  import opened Text

  /** `utils.MessageType`: the three kinds the console reacts to, and any other. */
  datatype MessageType = COMMAND | CONNECT | DISCONNECT | OTHER

  /** `utils.Message`: a type tag and an optional payload (the command line for COMMAND). */
  datatype Message = Message(kind: MessageType, data: Option<string>)

  /**
   * One call a command makes on the console: `poutput`, `perror` with a string, `perror`
   * with any other object (`shown` is the text `str()` gives it), or `async_alert`.
   */
  datatype Write =
    | Stdout(message: string, timestamp: bool)
    | Stderr(message: string)
    | StderrObject(shown: string)
    | Alert(message: string)

  /**
   * A value in the output buffer. `poutput` and `perror` append whatever they are given:
   * a string, or another object such as an exception, kept with the text it shows as.
   */
  datatype Entry = Text(text: string) | Object(shown: string)

  /** A string sent to the controller: a command's reply, or an alert pushed on its own. */
  datatype Sent = Reply(text: string) | AlertSent(text: string)

  /**
   * What `display_dashboard` gathers: the UT (as ISO text), the MET display (as
   * `Utils.Met.ToString` renders it), and what the mission brief, task plan, spacecraft
   * properties, resources and help commands write.
   */
  datatype Dashboard = Dashboard(ut: string, met: string, brief: seq<Write>, tasks: string,
                                 properties: seq<Write>, resources: seq<Write>, help: seq<Write>)

  /**
   * The console's state: output buffer, connection flag, what was sent, what the terminal
   * shows, and whether the `receive_message` thread is still taking messages off the channel.
   */
  datatype State = State(buffer: seq<Entry>, connected: bool, outbox: seq<Sent>, screen: seq<string>,
                         receiving: bool)

  const Prompt: string := "> "

  /** The entry `poutput` buffers: with `timestamp`, "<ut isoformat> | <message>". */
  function Stamp(message: string, timestamp: bool, ut: string): (entry: string)
    ensures timestamp ==> entry == ut + " | " + message
    ensures !timestamp ==> entry == message
  {
    if timestamp then ut + " | " + message else message
  }

  /** A state change made by one write. `ut` is the current UT as ISO text. */
  function Perform(s: State, w: Write, ut: string, quiet: bool): State
  {
    match w
    case Stdout(m, t) =>
      var entry := Stamp(m, t, ut);
      s.(buffer := s.buffer + [Text(entry)], screen := s.screen + if quiet then [] else [entry])
    case Stderr(m) =>
      s.(buffer := s.buffer + [Text(m)], screen := s.screen + if quiet then [] else [m])
    case StderrObject(o) =>
      s.(buffer := s.buffer + [Object(o)], screen := s.screen + if quiet then [] else [o])
    case Alert(m) =>
      s.(outbox := s.outbox + [AlertSent(m)], screen := s.screen + [m])
  }

  function PerformAll(s: State, ws: seq<Write>, ut: string, quiet: bool): State
  {
    if |ws| == 0 then s
    else Perform(PerformAll(s, ws[..|ws| - 1], ut, quiet), ws[|ws| - 1], ut, quiet)
  }

  /** The buffer entry of one write: one for `poutput` and `perror`, none for an alert. */
  function EntryOf(w: Write, ut: string): seq<Entry>
  {
    match w
    case Stdout(m, t) => [Text(Stamp(m, t, ut))]
    case Stderr(m) => [Text(m)]
    case StderrObject(o) => [Object(o)]
    case Alert(_) => []
  }

  function SentOf(w: Write): seq<Sent>
  {
    if w.Alert? then [AlertSent(w.message)] else []
  }

  /** The buffer entries a run of writes adds. */
  function Buffered(ws: seq<Write>, ut: string): seq<Entry>
  {
    if |ws| == 0 then [] else Buffered(ws[..|ws| - 1], ut) + EntryOf(ws[|ws| - 1], ut)
  }

  /** The alerts a run of writes sends, in order. */
  function AlertsOf(ws: seq<Write>): seq<Sent>
  {
    if |ws| == 0 then [] else AlertsOf(ws[..|ws| - 1]) + SentOf(ws[|ws| - 1])
  }

  /**
   * Writes append their entries to the buffer, whatever `quiet` says, and send only
   * the alerts; the connection flag and the receive thread are not touched.
   */
  lemma {:induction false} PerformAllSpec(s: State, ws: seq<Write>, ut: string, quiet: bool)
    ensures PerformAll(s, ws, ut, quiet).buffer == s.buffer + Buffered(ws, ut)
    ensures PerformAll(s, ws, ut, quiet).outbox == s.outbox + AlertsOf(ws)
    ensures PerformAll(s, ws, ut, quiet).connected == s.connected
    ensures PerformAll(s, ws, ut, quiet).receiving == s.receiving
  {
    if |ws| > 0 {
      var init, w := ws[..|ws| - 1], ws[|ws| - 1];
      PerformAllSpec(s, init, ut, quiet);
      var p := PerformAll(s, init, ut, quiet);
      PerformSpec(p, w, ut, quiet);
      assert s.buffer + Buffered(ws, ut) == (s.buffer + Buffered(init, ut)) + EntryOf(w, ut);
      assert s.outbox + AlertsOf(ws) == (s.outbox + AlertsOf(init)) + SentOf(w);
    }
  }

  /** One write adds its entry to the buffer and its alert to what is sent. */
  lemma PerformSpec(s: State, w: Write, ut: string, quiet: bool)
    ensures Perform(s, w, ut, quiet).buffer == s.buffer + EntryOf(w, ut)
    ensures Perform(s, w, ut, quiet).outbox == s.outbox + SentOf(w)
    ensures Perform(s, w, ut, quiet).connected == s.connected
    ensures Perform(s, w, ut, quiet).receiving == s.receiving
  {
  }

  /** The first three lines `display_dashboard` writes. */
  function HeaderWrites(d: Dashboard): seq<Write>
  {
    [Stdout("SatelliteOS", false), Stdout("UT: " + d.ut + " | MET: " + d.met, false), Stdout("", false)]
  }

  /** What `display_dashboard` writes after the mission brief. */
  function TrailerWrites(d: Dashboard): seq<Write>
  {
    [Stdout("", false), Stdout("Task Plan:", false), Stdout(d.tasks, false), Stdout("", false),
     Stdout("Spacecraft Properties:", false)]
    + d.properties + [Stdout("", false), Stdout("Resources:", false)]
    + d.resources + d.help
  }

  /** What `display_dashboard` writes, in order. */
  function DashboardWrites(d: Dashboard): seq<Write>
  {
    HeaderWrites(d) + (d.brief + TrailerWrites(d))
  }

  /** The text an f-string shows for an optional payload. */
  function Show(data: Option<string>): string
  {
    match data
    case Some(text) => text
    case None => "None"
  }

  predicate AllText(b: seq<Entry>)
  {
    forall k :: 0 <= k < |b| ==> b[k].Text?
  }

  /** The text each entry shows as. */
  function Texts(b: seq<Entry>): (t: seq<string>)
    ensures |t| == |b|
  {
    seq(|b|, k requires 0 <= k < |b| => if b[k].Text? then b[k].text else b[k].shown)
  }

  /** The position of the first entry that is not a string, if any. */
  function FirstObject(b: seq<Entry>): (r: Option<nat>)
    ensures r.None? <==> AllText(b)
    ensures r.Some? ==> r.value < |b| && b[r.value].Object? && AllText(b[..r.value])
  {
    if |b| == 0 then None
    else if b[0].Object? then Some(0)
    else
      match FirstObject(b[1..])
      case None => None
      case Some(k) =>
        assert b[..k + 1] == [b[0]] + b[1..][..k];
        Some(k + 1)
  }

  /**
   * `"\n".join(output_buffer)`: the entries joined by newlines, or the position of the
   * first entry that is not a string, where Python's join raises TypeError.
   */
  function Output(b: seq<Entry>): (r: Result<string, nat>)
    ensures r.Ok? <==> AllText(b)
    ensures r.Ok? ==> r.value == Join(Texts(b), '\n')
    ensures r.Err? ==> r.error < |b| && b[r.error].Object? && AllText(b[..r.error])
  {
    match FirstObject(b)
    case None => Ok(Join(Texts(b), '\n'))
    case Some(k) => Err(k)
  }

  /**
   * `get_output` then `send_message`: the joined buffer goes out as one reply and the
   * buffer is emptied. When the join raises, nothing is sent, the buffer stays, and the
   * exception ends the receive thread.
   */
  function Flush(s: State): State
  {
    match Output(s.buffer)
    case Ok(text) => s.(buffer := [], outbox := s.outbox + [Reply(text)])
    case Err(_) => s.(receiving := false)
  }

  /**
   * One message taken off the channel by `receive_message`. `run` is the command
   * interpreter: what the command line makes the console write.
   */
  function Receive(s: State, m: Message, run: Option<string> -> seq<Write>, d: Dashboard,
                   ut: string, quiet: bool): State
  {
    match m.kind
    case COMMAND =>
      var echoed := s.(screen := s.screen + [Prompt + Show(m.data)]);
      Flush(PerformAll(echoed, run(m.data), ut, quiet))
    case CONNECT =>
      var marked := s.(connected := true, screen := s.screen + ["Controller connected"]);
      if Output(marked.buffer).Err? then marked.(receiving := false)
      else Flush(PerformAll(marked.(buffer := []), DashboardWrites(d), ut, quiet))
    case DISCONNECT =>
      s.(connected := false, screen := s.screen + ["Controller disconnected"])
    case OTHER => s
  }

  /** A run of messages, oldest first; once the receive thread has ended, none is read. */
  function ReceiveAll(s: State, ms: seq<Message>, run: Option<string> -> seq<Write>, d: Dashboard,
                      ut: string, quiet: bool): State
    decreases |ms|
  {
    if |ms| == 0 || !s.receiving then s
    else ReceiveAll(Receive(s, ms[0], run, d, ut, quiet), ms[1..], run, d, ut, quiet)
  }

  /** The message makes a `get_output` raise: a non-string entry is in the buffer it joins. */
  predicate Stops(s: State, m: Message, run: Option<string> -> seq<Write>, d: Dashboard, ut: string)
  {
    match m.kind
    case COMMAND => !AllText(s.buffer + Buffered(run(m.data), ut))
    case CONNECT => !AllText(s.buffer) || !AllText(Buffered(DashboardWrites(d), ut))
    case _ => false
  }

  /**
   * A COMMAND runs whatever the connection state. When every buffered entry is a string it
   * sends its alerts and then exactly one reply: everything buffered so far, leftovers
   * included, then the command's own entries. Otherwise only its alerts go out: no reply,
   * the entries stay buffered and the receive thread ends.
   */
  lemma CommandReply(s: State, m: Message, run: Option<string> -> seq<Write>, d: Dashboard,
                     ut: string, quiet: bool)
    requires m.kind == COMMAND
    ensures var r := Receive(s, m, run, d, ut, quiet);
      var ws := run(m.data);
      var b := s.buffer + Buffered(ws, ut);
      r.connected == s.connected
      && (AllText(b) ==>
            r.buffer == [] && r.receiving == s.receiving
            && r.outbox == s.outbox + AlertsOf(ws) + [Reply(Join(Texts(b), '\n'))])
      && (!AllText(b) ==> r.buffer == b && !r.receiving && r.outbox == s.outbox + AlertsOf(ws))
  {
    PerformAllSpec(s.(screen := s.screen + [Prompt + Show(m.data)]), run(m.data), ut, quiet);
  }

  /**
   * A CONNECT marks the controller connected. When the earlier buffer and the dashboard hold
   * only strings, it drops earlier output and replies with the dashboard alone. A non-string
   * entry makes the first or the second `get_output` raise: no reply, and the receive
   * thread ends.
   */
  lemma ConnectReply(s: State, m: Message, run: Option<string> -> seq<Write>, d: Dashboard,
                     ut: string, quiet: bool)
    requires m.kind == CONNECT
    ensures var r := Receive(s, m, run, d, ut, quiet);
      var ws := DashboardWrites(d);
      var b := Buffered(ws, ut);
      r.connected
      && (!AllText(s.buffer) ==> r.buffer == s.buffer && !r.receiving && r.outbox == s.outbox)
      && (AllText(s.buffer) && AllText(b) ==>
            r.buffer == [] && r.receiving == s.receiving
            && r.outbox == s.outbox + AlertsOf(ws) + [Reply(Join(Texts(b), '\n'))])
      && (AllText(s.buffer) && !AllText(b) ==>
            r.buffer == b && !r.receiving && r.outbox == s.outbox + AlertsOf(ws))
  {
    var marked := s.(connected := true, screen := s.screen + ["Controller connected"]);
    var ws := DashboardWrites(d);
    if AllText(s.buffer) {
      var p := PerformAll(marked.(buffer := []), ws, ut, quiet);
      assert Receive(s, m, run, d, ut, quiet) == Flush(p);
      PerformAllSpec(marked.(buffer := []), ws, ut, quiet);
      assert p.buffer == Buffered(ws, ut);
    }
  }

  /**
   * The dashboard buffers the header lines "SatelliteOS", "UT: <ut> | MET: <met>" and "",
   * and more lines after them.
   */
  lemma DashboardHeader(d: Dashboard, ut: string)
    ensures var b := Buffered(DashboardWrites(d), ut);
      |b| >= 4 && b[..3] == [Text("SatelliteOS"), Text("UT: " + d.ut + " | MET: " + d.met), Text("")]
  {
    var h := HeaderWrites(d);
    var rest := d.brief + TrailerWrites(d);
    var hb, rb := Buffered(h, ut), Buffered(rest, ut);
    BufferedAppend(h, rest, ut);
    HeaderBuffered(d, ut);
    TrailerBuffered(d, ut);
    assert Buffered(DashboardWrites(d), ut) == hb + rb;
    assert (hb + rb)[..3] == hb;
  }

  /** The three header writes buffer three lines. */
  lemma HeaderBuffered(d: Dashboard, ut: string)
    ensures Buffered(HeaderWrites(d), ut)
         == [Text("SatelliteOS"), Text("UT: " + d.ut + " | MET: " + d.met), Text("")]
  {
    var h := HeaderWrites(d);
    assert h[..2][..1] == h[..1] && h[..1][..0] == [];
    assert Buffered(h[..1], ut) == [Text("SatelliteOS")];
    assert Buffered(h[..2], ut) == [Text("SatelliteOS"), Text("UT: " + d.ut + " | MET: " + d.met)];
    assert h[..3] == h;
  }

  /** The brief and the trailer buffer at least one line. */
  lemma TrailerBuffered(d: Dashboard, ut: string)
    ensures |Buffered(d.brief + TrailerWrites(d), ut)| >= 1
  {
    var t := TrailerWrites(d);
    var first := [Stdout("", false)];
    assert t == first + t[1..];
    BufferedAppend(first, t[1..], ut);
    assert first[..0] == [];
    BufferedAppend(d.brief, t, ut);
  }

  lemma {:induction false} BufferedAppend(a: seq<Write>, b: seq<Write>, ut: string)
    ensures Buffered(a + b, ut) == Buffered(a, ut) + Buffered(b, ut)
    decreases |b|
  {
    if |b| > 0 {
      assert (a + b)[..|a + b| - 1] == a + b[..|b| - 1];
      assert (a + b)[|a + b| - 1] == b[|b| - 1];
      BufferedAppend(a, b[..|b| - 1], ut);
    } else {
      assert a + b == a;
    }
  }

  /** Every `perror` of the run is handed a string. */
  predicate TextWrites(ws: seq<Write>)
  {
    forall k :: 0 <= k < |ws| ==> !ws[k].StderrObject?
  }

  /** Writes that hand `perror` only strings buffer only strings. */
  lemma {:induction false} TextBuffered(ws: seq<Write>, ut: string)
    requires TextWrites(ws)
    ensures AllText(Buffered(ws, ut))
  {
    if |ws| > 0 {
      var init := ws[..|ws| - 1];
      assert TextWrites(init) by {
        forall k | 0 <= k < |init| ensures !init[k].StderrObject? {
          assert init[k] == ws[k];
        }
      }
      TextBuffered(init, ut);
    }
  }

  /** The CONNECT reply, when one is sent, begins with the dashboard header, one line each. */
  lemma ConnectReplyHeader(s: State, m: Message, run: Option<string> -> seq<Write>, d: Dashboard,
                           ut: string, quiet: bool)
    requires m.kind == CONNECT
    ensures var r := Receive(s, m, run, d, ut, quiet);
      AllText(s.buffer) && AllText(Buffered(DashboardWrites(d), ut)) ==>
        |r.outbox| > 0 && r.outbox[|r.outbox| - 1].Reply?
        && StartsWith(r.outbox[|r.outbox| - 1].text, "SatelliteOS\nUT: " + d.ut + " | MET: " + d.met + "\n\n")
  {
    ConnectReply(s, m, run, d, ut, quiet);
    DashboardText(d, ut);
  }

  /** The joined dashboard starts with its three header lines. */
  lemma DashboardText(d: Dashboard, ut: string)
    ensures StartsWith(Join(Texts(Buffered(DashboardWrites(d), ut)), '\n'),
                       "SatelliteOS\nUT: " + d.ut + " | MET: " + d.met + "\n\n")
  {
    var b := Buffered(DashboardWrites(d), ut);
    var t := Texts(b);
    DashboardHeader(d, ut);
    assert b[0] == b[..3][0] && b[1] == b[..3][1] && b[2] == b[..3][2];
    assert t[0] == "SatelliteOS" && t[1] == "UT: " + d.ut + " | MET: " + d.met && t[2] == "";
    HeaderPrefix(t, d.ut, d.met);
  }

  /** Lines "SatelliteOS", "UT: <u> | MET: <m>" and "" come out of a join as one header text. */
  lemma HeaderPrefix(b: seq<string>, u: string, m: string)
    requires |b| >= 4 && b[0] == "SatelliteOS" && b[1] == "UT: " + u + " | MET: " + m && b[2] == ""
    ensures StartsWith(Join(b, '\n'), "SatelliteOS\nUT: " + u + " | MET: " + m + "\n\n")
  {
    var tail := Join(b[3..], '\n');
    JoinHeader(b, "\n" + tail);
    var header := "SatelliteOS\nUT: " + u + " | MET: " + m + "\n\n";
    HeaderLines(b[1], tail);
    HeaderText(u, m);
    assert Join(b, '\n') == header + tail;
    assert (header + tail)[..|header|] == header;
  }

  lemma HeaderLines(line: string, tail: string)
    ensures "SatelliteOS" + "\n" + line + "\n" + "" + ("\n" + tail) == ("SatelliteOS\n" + line + "\n\n") + tail
  {
    var p := "SatelliteOS" + "\n" + line;
    assert "SatelliteOS" + "\n" == "SatelliteOS\n";
    assert p + "\n" + "" == p + "\n";
    assert (p + "\n") + ("\n" + tail) == (p + "\n" + "\n") + tail;
    assert p + "\n" + "\n" == p + "\n\n";
  }

  lemma HeaderText(u: string, m: string)
    ensures "SatelliteOS\nUT: " + u + " | MET: " + m + "\n\n" == "SatelliteOS\n" + ("UT: " + u + " | MET: " + m) + "\n\n"
  {
    assert "SatelliteOS\nUT: " == "SatelliteOS\n" + "UT: ";
  }

  /** A list of at least four entries joins to its first three lines, then the rest. */
  lemma JoinHeader(b: seq<string>, rest: string)
    requires |b| >= 4 && rest == "\n" + Join(b[3..], '\n')
    ensures Join(b, '\n') == b[0] + "\n" + b[1] + "\n" + b[2] + rest
  {
    var j1, j2, j3 := Join(b[1..], '\n'), Join(b[2..], '\n'), Join(b[3..], '\n');
    assert b[1..][0] == b[1] && b[1..][1..] == b[2..];
    assert b[2..][0] == b[2] && b[2..][1..] == b[3..];
    JoinCons(b[2..], '\n');
    JoinCons(b[1..], '\n');
    JoinCons(b, '\n');
    assert j2 == b[2] + "\n" + j3;
    assert j1 == b[1] + "\n" + j2;
    assert Join(b, '\n') == b[0] + "\n" + j1;
    LineChain(b[0], b[1], b[2], j3);
  }

  /** Three lines and a tail, joined innermost first or left to right, are the same text. */
  lemma LineChain(x: string, y: string, z: string, t: string)
    ensures x + "\n" + (y + "\n" + (z + "\n" + t)) == x + "\n" + y + "\n" + z + ("\n" + t)
  {
    var nl := "\n";
    calc {
      x + nl + (y + nl + (z + nl + t));
      (x + nl) + ((y + nl) + ((z + nl) + t));
      { assert (y + nl) + ((z + nl) + t) == ((y + nl) + (z + nl)) + t; }
      (x + nl) + (((y + nl) + (z + nl)) + t);
      { assert (x + nl) + (((y + nl) + (z + nl)) + t) == ((x + nl) + ((y + nl) + (z + nl))) + t; }
      ((x + nl) + ((y + nl) + (z + nl))) + t;
      { assert (x + nl) + ((y + nl) + (z + nl)) == x + nl + y + nl + z + nl; }
      (x + nl + y + nl + z + nl) + t;
      { assert (x + nl + y + nl + z + nl) + t == (x + nl + y + nl + z) + (nl + t); }
      x + nl + y + nl + z + (nl + t);
    }
  }

  /** A DISCONNECT marks the controller disconnected and sends nothing. */
  lemma DisconnectSilent(s: State, m: Message, run: Option<string> -> seq<Write>, d: Dashboard,
                         ut: string, quiet: bool)
    requires m.kind == DISCONNECT
    ensures var r := Receive(s, m, run, d, ut, quiet);
      !r.connected && r.outbox == s.outbox && r.buffer == s.buffer && r.receiving == s.receiving
  {
  }

  /** Dispatch never looks at the connection flag: buffer, replies, terminal and thread come out the same. */
  lemma IgnoresConnection(s: State, m: Message, run: Option<string> -> seq<Write>, d: Dashboard,
                          ut: string, quiet: bool)
    ensures var r1 := Receive(s.(connected := true), m, run, d, ut, quiet);
      var r2 := Receive(s.(connected := false), m, run, d, ut, quiet);
      r1.buffer == r2.buffer && r1.outbox == r2.outbox && r1.screen == r2.screen && r1.receiving == r2.receiving
  {
    if m.kind == COMMAND {
      CommandReply(s.(connected := true), m, run, d, ut, quiet);
      CommandReply(s.(connected := false), m, run, d, ut, quiet);
      ScreenIgnoresConnection(s.(screen := s.screen + [Prompt + Show(m.data)]), run(m.data), ut, quiet);
    }
  }

  lemma {:induction false} ScreenIgnoresConnection(s: State, ws: seq<Write>, ut: string, quiet: bool)
    ensures PerformAll(s.(connected := true), ws, ut, quiet).screen == PerformAll(s.(connected := false), ws, ut, quiet).screen
    ensures PerformAll(s.(connected := true), ws, ut, quiet).outbox == PerformAll(s.(connected := false), ws, ut, quiet).outbox
    ensures PerformAll(s.(connected := true), ws, ut, quiet).buffer == PerformAll(s.(connected := false), ws, ut, quiet).buffer
    ensures PerformAll(s.(connected := true), ws, ut, quiet).receiving == PerformAll(s.(connected := false), ws, ut, quiet).receiving
  {
    if |ws| > 0 {
      ScreenIgnoresConnection(s, ws[..|ws| - 1], ut, quiet);
    }
  }

  function CountReplies(out: seq<Sent>): nat
  {
    if |out| == 0 then 0 else CountReplies(out[..|out| - 1]) + if out[|out| - 1].Reply? then 1 else 0
  }

  function CountAnswered(ms: seq<Message>): nat
  {
    if |ms| == 0 then 0
    else (if ms[0].kind in {COMMAND, CONNECT} then 1 else 0) + CountAnswered(ms[1..])
  }

  lemma {:induction false} CountRepliesAppend(a: seq<Sent>, b: seq<Sent>)
    ensures CountReplies(a + b) == CountReplies(a) + CountReplies(b)
    decreases |b|
  {
    if |b| > 0 {
      assert (a + b)[..|a + b| - 1] == a + b[..|b| - 1];
      assert (a + b)[|a + b| - 1] == b[|b| - 1];
      CountRepliesAppend(a, b[..|b| - 1]);
    } else {
      assert a + b == a;
    }
  }

  lemma {:induction false} AlertsAreNotReplies(ws: seq<Write>)
    ensures CountReplies(AlertsOf(ws)) == 0
  {
    if |ws| > 0 {
      AlertsAreNotReplies(ws[..|ws| - 1]);
      CountRepliesAppend(AlertsOf(ws[..|ws| - 1]), SentOf(ws[|ws| - 1]));
    }
  }

  /**
   * One message keeps everything sent before. It adds exactly one reply when it is a COMMAND
   * or a CONNECT whose `get_output` succeeds, and none otherwise; the receive thread goes
   * on exactly when no `get_output` raised.
   */
  lemma ReplyStep(p: State, m: Message, run: Option<string> -> seq<Write>, d: Dashboard,
                  ut: string, quiet: bool)
    ensures var r := Receive(p, m, run, d, ut, quiet);
      var answered := m.kind in {COMMAND, CONNECT} && !Stops(p, m, run, d, ut);
      |r.outbox| >= |p.outbox| && r.outbox[..|p.outbox|] == p.outbox
      && r.receiving == (p.receiving && !Stops(p, m, run, d, ut))
      && CountReplies(r.outbox) == CountReplies(p.outbox) + if answered then 1 else 0
  {
    if m.kind == COMMAND {
      var ws := run(m.data);
      CommandReply(p, m, run, d, ut, quiet);
      if Stops(p, m, run, d, ut) {
        AlertsAfter(p.outbox, ws);
      } else {
        ReplyAfterAlerts(p.outbox, ws, Join(Texts(p.buffer + Buffered(ws, ut)), '\n'));
      }
    } else if m.kind == CONNECT {
      var ws := DashboardWrites(d);
      ConnectReply(p, m, run, d, ut, quiet);
      if !AllText(p.buffer) {
        assert Receive(p, m, run, d, ut, quiet).outbox == p.outbox;
      } else if AllText(Buffered(ws, ut)) {
        ReplyAfterAlerts(p.outbox, ws, Join(Texts(Buffered(ws, ut)), '\n'));
      } else {
        AlertsAfter(p.outbox, ws);
      }
    } else {
      assert Receive(p, m, run, d, ut, quiet).outbox == p.outbox;
    }
  }

  /** Alerts after what was sent before add no reply. */
  lemma AlertsAfter(sent: seq<Sent>, ws: seq<Write>)
    ensures var all := sent + AlertsOf(ws);
      |all| >= |sent| && all[..|sent|] == sent && CountReplies(all) == CountReplies(sent)
  {
    AlertsAreNotReplies(ws);
    CountRepliesAppend(sent, AlertsOf(ws));
  }

  /** Alerts followed by one reply, after what was sent before, count one reply more. */
  lemma ReplyAfterAlerts(sent: seq<Sent>, ws: seq<Write>, text: string)
    ensures var all := sent + AlertsOf(ws) + [Reply(text)];
      |all| >= |sent| && all[..|sent|] == sent && CountReplies(all) == CountReplies(sent) + 1
  {
    var reply := Reply(text);
    var tail := AlertsOf(ws) + [reply];
    assert sent + AlertsOf(ws) + [reply] == sent + tail;
    AlertsAreNotReplies(ws);
    CountRepliesAppend(AlertsOf(ws), [reply]);
    assert CountReplies([reply]) == 1 by {
      assert [reply][..0] == [];
    }
    CountRepliesAppend(sent, tail);
  }

  /**
   * Over any run of messages what was sent before is kept, and while the receive thread
   * is still running afterwards the controller has had exactly one reply per COMMAND and
   * per CONNECT.
   */
  lemma {:induction false} OneReplyPerRequest(s: State, ms: seq<Message>, run: Option<string> -> seq<Write>,
                                              d: Dashboard, ut: string, quiet: bool)
    ensures var r := ReceiveAll(s, ms, run, d, ut, quiet);
      |r.outbox| >= |s.outbox| && r.outbox[..|s.outbox|] == s.outbox
      && (r.receiving ==> CountReplies(r.outbox) == CountReplies(s.outbox) + CountAnswered(ms))
    decreases |ms|
  {
    if |ms| > 0 && s.receiving {
      var p := Receive(s, ms[0], run, d, ut, quiet);
      ReplyStep(s, ms[0], run, d, ut, quiet);
      OneReplyPerRequest(p, ms[1..], run, d, ut, quiet);
      var r := ReceiveAll(s, ms, run, d, ut, quiet);
      assert r == ReceiveAll(p, ms[1..], run, d, ut, quiet);
      assert r.outbox[..|s.outbox|] == r.outbox[..|p.outbox|][..|s.outbox|];
      if r.receiving {
        assert p.receiving;
      }
    }
  }

  /**
   * A message whose `get_output` raises is the last one read: it gets no reply, and no
   * later message changes anything.
   */
  lemma LastMessageRead(s: State, m: Message, rest: seq<Message>, run: Option<string> -> seq<Write>,
                        d: Dashboard, ut: string, quiet: bool)
    requires s.receiving && Stops(s, m, run, d, ut)
    ensures var r := Receive(s, m, run, d, ut, quiet);
      !r.receiving && ReceiveAll(s, [m] + rest, run, d, ut, quiet) == r
      && CountReplies(r.outbox) == CountReplies(s.outbox)
  {
    ReplyStep(s, m, run, d, ut, quiet);
    assert ([m] + rest)[0] == m && ([m] + rest)[1..] == rest;
  }

  /**
   * As long as every command hands `perror` only strings, and so does the dashboard, the
   * receive thread never ends and every COMMAND and CONNECT gets exactly one reply.
   */
  lemma {:induction false} TextOnlyAnswersAll(s: State, ms: seq<Message>, run: Option<string> -> seq<Write>,
                                              d: Dashboard, ut: string, quiet: bool)
    requires s.receiving && AllText(s.buffer) && TextWrites(DashboardWrites(d))
    requires forall k :: 0 <= k < |ms| && ms[k].kind == COMMAND ==> TextWrites(run(ms[k].data))
    ensures var r := ReceiveAll(s, ms, run, d, ut, quiet);
      r.receiving && AllText(r.buffer)
      && CountReplies(r.outbox) == CountReplies(s.outbox) + CountAnswered(ms)
    decreases |ms|
  {
    if |ms| > 0 {
      var m := ms[0];
      var p := Receive(s, m, run, d, ut, quiet);
      if m.kind == COMMAND {
        TextBuffered(run(m.data), ut);
        assert AllText(s.buffer + Buffered(run(m.data), ut));
        CommandReply(s, m, run, d, ut, quiet);
      } else if m.kind == CONNECT {
        TextBuffered(DashboardWrites(d), ut);
        ConnectReply(s, m, run, d, ut, quiet);
      }
      ReplyStep(s, m, run, d, ut, quiet);
      assert p.receiving && AllText(p.buffer);
      var rest := ms[1..];
      forall k | 0 <= k < |rest| && rest[k].kind == COMMAND ensures TextWrites(run(rest[k].data)) {
        assert rest[k] == ms[k + 1];
      }
      TextOnlyAnswersAll(p, rest, run, d, ut, quiet);
      OneReplyPerRequest(s, ms, run, d, ut, quiet);
    }
  }

  /** `get_output` then splitting on newlines gives back the entries, when each is a string without a newline. */
  lemma OutputSplitsBack(buffer: seq<Entry>)
    requires |buffer| > 0 && forall k :: 0 <= k < |buffer| ==> buffer[k].Text? && '\n' !in buffer[k].text
    ensures Output(buffer).Ok? && Split(Output(buffer).value, '\n') == Texts(buffer)
  {
    SplitJoin(Texts(buffer), '\n');
  }

  /** `Console`: the buffer, the connection flag, the channel's sent strings and the terminal. */
  class Console {
    var outputBuffer: seq<Entry>
    var controllerConnected: bool
    var outbox: seq<Sent>
    var screen: seq<string>
    /** The `receive_message` thread is still running. */
    var receiving: bool
    const quiet: bool

    function Snapshot(): State
      reads this
    {
      State(outputBuffer, controllerConnected, outbox, screen, receiving)
    }

    /** `__init__`: empty buffer, no controller, and the receive thread started. */
    constructor (quiet: bool)
      ensures this.quiet == quiet
      ensures Snapshot() == State([], false, [], [], true)
    {
      this.quiet := quiet;
      outputBuffer := [];
      controllerConnected := false;
      outbox := [];
      screen := [];
      receiving := true;
    }

    /** `send_message`. */
    method SendMessage(message: string)
      modifies this
      ensures Snapshot() == old(Snapshot()).(outbox := old(outbox) + [Reply(message)])
    {
      outbox := outbox + [Reply(message)];
    }

    /** `poutput`: buffers one entry, and echoes it to the terminal unless quiet. */
    method Poutput(message: string, timestamp: bool, ut: string)
      modifies this
      ensures Snapshot() == Perform(old(Snapshot()), Stdout(message, timestamp), ut, quiet)
      ensures outputBuffer == old(outputBuffer) + [Text(Stamp(message, timestamp, ut))]
    {
      var entry := message;
      if timestamp {
        entry := ut + " | " + message;
      }
      outputBuffer := outputBuffer + [Text(entry)];
      if !quiet {
        screen := screen + [entry];
      }
    }

    /** `perror`: buffers the value it is given, string or not, and echoes its text unless quiet. */
    method Perror(value: Entry)
      modifies this
      ensures Snapshot() == Perform(old(Snapshot()),
                                    if value.Text? then Stderr(value.text) else StderrObject(value.shown), "", quiet)
      ensures outputBuffer == old(outputBuffer) + [value]
    {
      outputBuffer := outputBuffer + [value];
      if !quiet {
        screen := screen + [if value.Text? then value.text else value.shown];
      }
    }

    /** `async_alert`: sends the text straight away and shows it; the buffer is not touched. */
    method AsyncAlert(message: string)
      modifies this
      ensures Snapshot() == Perform(old(Snapshot()), Alert(message), "", quiet)
      ensures outputBuffer == old(outputBuffer)
    {
      outbox := outbox + [AlertSent(message)];
      screen := screen + [message];
    }

    /**
     * `get_output`: the buffer joined by newlines, in order, and the buffer emptied. When an
     * entry is not a string the join raises TypeError before the buffer is cleared; the
     * error carries that entry's position.
     */
    method GetOutput() returns (output: Result<string, nat>)
      modifies this
      ensures output == Output(old(outputBuffer))
      ensures output.Ok? ==> Snapshot() == old(Snapshot()).(buffer := [])
      ensures output.Err? ==> Snapshot() == old(Snapshot())
    {
      output := Output(outputBuffer);
      if output.Ok? {
        outputBuffer := [];
      }
    }

    /** Carries out the writes a command or the dashboard makes, in order. */
    method Apply(ws: seq<Write>, ut: string)
      modifies this
      ensures Snapshot() == PerformAll(old(Snapshot()), ws, ut, quiet)
    {
      ghost var start := Snapshot();
      var i := 0;
      while i < |ws|
        invariant i <= |ws| && Snapshot() == PerformAll(start, ws[..i], ut, quiet)
      {
        match ws[i] {
          case Stdout(m, t) => Poutput(m, t, ut);
          case Stderr(m) => Perror(Text(m));
          case StderrObject(o) => Perror(Object(o));
          case Alert(m) => AsyncAlert(m);
        }
        assert ws[..i + 1][..i] == ws[..i];
        i := i + 1;
      }
      assert ws[..i] == ws;
    }

    /** `display_dashboard`. */
    method DisplayDashboard(d: Dashboard, ut: string)
      modifies this
      ensures Snapshot() == PerformAll(old(Snapshot()), DashboardWrites(d), ut, quiet)
    {
      Apply(DashboardWrites(d), ut);
    }

    /** `preloop`: shows the dashboard; its entries stay buffered until the next reply. */
    method Preloop(d: Dashboard, ut: string)
      modifies this
      ensures Snapshot() == PerformAll(old(Snapshot()), DashboardWrites(d), ut, quiet)
    {
      DisplayDashboard(d, ut);
    }

    /**
     * `on_controller_command`: echo the command, run it, reply with the drained buffer. A
     * `get_output` that raises propagates out of the receive thread, which ends.
     */
    method OnControllerCommand(data: Option<string>, run: Option<string> -> seq<Write>, ut: string)
      modifies this
      ensures Snapshot() == Receive(old(Snapshot()), Message(COMMAND, data), run, Dashboard("", "", [], "", [], [], []), ut, quiet)
    {
      screen := screen + [Prompt + Show(data)];
      Apply(run(data), ut);
      var output := GetOutput();
      if output.Err? {
        receiving := false;
        return;
      }
      SendMessage(output.value);
    }

    /**
     * `on_controller_connect`: mark connected, clear the buffer, reply with the dashboard.
     * Either `get_output` raising ends the receive thread.
     */
    method OnControllerConnect(d: Dashboard, ut: string)
      modifies this
      ensures Snapshot() == Receive(old(Snapshot()), Message(CONNECT, None), x => [], d, ut, quiet)
    {
      controllerConnected := true;
      screen := screen + ["Controller connected"];
      var discarded := GetOutput();
      if discarded.Err? {
        receiving := false;
        return;
      }
      DisplayDashboard(d, ut);
      var output := GetOutput();
      if output.Err? {
        receiving := false;
        return;
      }
      SendMessage(output.value);
    }

    /** `on_controller_disconnect`. */
    method OnControllerDisconnect()
      modifies this
      ensures Snapshot() == old(Snapshot()).(connected := false, screen := old(screen) + ["Controller disconnected"])
    {
      controllerConnected := false;
      screen := screen + ["Controller disconnected"];
    }

    /** One iteration of `receive_message`: dispatch on the message type only. */
    method ReceiveMessage(m: Message, run: Option<string> -> seq<Write>, d: Dashboard, ut: string)
      modifies this
      ensures Snapshot() == Receive(old(Snapshot()), m, run, d, ut, quiet)
    {
      match m.kind {
        case COMMAND => OnControllerCommand(m.data, run, ut);
        case CONNECT => OnControllerConnect(d, ut);
        case DISCONNECT => OnControllerDisconnect();
        case OTHER =>
      }
    }

    /**
     * `receive_message` over a finite run of messages: it reads them in order until one
     * of them makes the thread end.
     */
    method ReceiveMessages(ms: seq<Message>, run: Option<string> -> seq<Write>, d: Dashboard, ut: string)
      modifies this
      ensures Snapshot() == ReceiveAll(old(Snapshot()), ms, run, d, ut, quiet)
    {
      ghost var goal := ReceiveAll(Snapshot(), ms, run, d, ut, quiet);
      var i := 0;
      assert ms[i..] == ms;
      while i < |ms| && receiving
        invariant i <= |ms| && ReceiveAll(Snapshot(), ms[i..], run, d, ut, quiet) == goal
      {
        assert ms[i..][0] == ms[i] && ms[i..][1..] == ms[i + 1..];
        ReceiveMessage(ms[i], run, d, ut);
        i := i + 1;
      }
    }

    /** `CustomCmd2ArgumentParser._print_message`: forwards to `poutput` only a non-empty message. */
    method PrintMessage(message: string)
      modifies this
      ensures message == "" ==> Snapshot() == old(Snapshot())
      ensures message != "" ==> Snapshot() == Perform(old(Snapshot()), Stdout(message, false), "", quiet)
    {
      if message != "" {
        Poutput(message, false, "");
      }
    }
  }
}
