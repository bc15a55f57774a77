/**
 * The communication service: messages to mission control are appended to a log file,
 * a JSON list of `CommMessage` records that is read whole and written back whole.
 */
module CommsService {
  import opened Wrappers
  import opened Utils
  import opened ConsoleApp

  /** `CommMessage`; the sender field is spelt `fromm` in the record. */
  datatype CommMessage = CommMessage(timestamp: DateTime, fromm: string, to: string, message: string)

  const MissionControl: string := "MissionControl"

  /** `CommunicationService`: the log file (None while it does not exist) and the console writes. */
  class CommunicationService {
    var log: Option<seq<CommMessage>>
    var writes: seq<Write>

    constructor (log: Option<seq<CommMessage>>)
      ensures this.log == log && writes == []
    {
      this.log := log;
      writes := [];
    }

    /**
     * `send_message`: the log gains the message at its end, every earlier entry kept in
     * order, and the message comes back unchanged. Opening a missing log fails before
     * anything is written.
     */
    method SendMessage(message: CommMessage) returns (r: Result<CommMessage, string>)
      modifies this
      ensures writes == old(writes)
      ensures old(log).None? ==> r == Err("FileNotFoundError") && log == old(log)
      ensures old(log).Some? ==> r == Ok(message) && log == Some(old(log).value + [message])
    {
      if log.None? {
        return Err("FileNotFoundError");
      }
      var messages := log.value;
      messages := messages + [message];
      log := Some(messages);
      r := Ok(message);
    }

    /**
     * `do_send_message`: a message from the vessel to mission control, stamped with the
     * current UT, is logged and "Message sent" written.
     */
    method DoSendMessage(ut: int, vesselName: string, text: string) returns (r: Result<CommMessage, string>)
      modifies this
      ensures old(log).None? ==> r.Err? && log == old(log) && writes == old(writes)
      ensures old(log).Some? ==>
        r == Ok(CommMessage(GetUt(ut), vesselName, MissionControl, text))
        && log == Some(old(log).value + [r.value])
        && writes == old(writes) + [Stdout("Message sent", false)]
    {
      var message := CommMessage(GetUt(ut), vesselName, MissionControl, text);
      r := SendMessage(message);
      if r.Err? {
        return;
      }
      writes := writes + [Stdout("Message sent", false)];
    }
  }
}
