/**
 * The desktop detector: the log state, the per-result deduplication step and
 * one iteration of the polling loop with its two keys and the hourly save.
 */
module Desktop {
  import opened Wrappers
  import opened Labels
  import opened Records
  import opened Dedup

  /** The key that prints and saves the log. */
  const SaveKey: int := 'q' as int
  /** The key that ends the loop. */
  const StopKey: int := 'p' as int

  /** The low byte of a key code, as `code & 0xFF` computes it on a Python int. */
  function KeyByte(code: int): (b: int)
    ensures 0 <= b < 256
    ensures (code - b) % 256 == 0
  {
    code % 256
  }

  /** Which branch one loop iteration takes after its inference results. */
  datatype Branch = Save | Stop | HourChanged | Continue

  /**
   * The save key is read from the first key poll; only when it did not match
   * is a second poll compared with the stop key; only when neither matched is
   * the hour compared with the last saved one.
   */
  function Choose(firstKey: int, secondKey: int, hour: int, lastHour: int): (b: Branch)
    ensures b == Save <==> KeyByte(firstKey) == SaveKey
    ensures b == Stop <==> KeyByte(firstKey) != SaveKey && KeyByte(secondKey) == StopKey
    ensures b == HourChanged <==>
              KeyByte(firstKey) != SaveKey && KeyByte(secondKey) != StopKey && hour != lastHour
  {
    if KeyByte(firstKey) == SaveKey then Save
    else if KeyByte(secondKey) == StopKey then Stop
    else if hour != lastHour then HourChanged
    else Continue
  }

  class TrashDetector {
    var detects: seq<string>
    var lastCount: int
    var lastHour: int

    ghost predicate Valid()
      reads this
    {
      Consistent(Session(detects, lastCount))
    }

    function State(): Session
      reads this
    {
      Session(detects, lastCount)
    }

    /** A fresh detector: an empty log and the hour it was started in. */
    constructor (hour: int)
      ensures Valid()
      ensures State() == Empty && lastHour == hour
    {
      detects := [];
      lastCount := 0;
      lastHour := hour;
    }

    /**
     * One inference result: `logged` says whether the snapshot was saved and
     * the notification sent, which happens exactly when a label is appended.
     */
    method ResultProcess(objects: int, now: Stamp) returns (logged: bool)
      requires Valid() && ValidStamp(now)
      modifies this`detects, this`lastCount
      ensures Valid()
      ensures State() == Process(old(State()), Sample(objects, now))
      ensures logged == Logs(old(State()), Sample(objects, now))
    {
      ProcessConsistent(State(), Sample(objects, now));
      logged := false;
      if objects > 0 {
        var entry := Label(now, objects);
        if objects != lastCount {
          var isPresent := IsPresent(detects, entry);
          if !isPresent {
            detects := detects + [entry];
            lastCount := objects;
            logged := true;
          }
        }
      } else {
        lastCount := 0;
      }
    }

    /** The save block: the record file's new contents, or nothing for an empty log. */
    method Flush() returns (written: Option<string>)
      requires Valid()
      ensures written == FlushOutput(detects)
      ensures written.Some? ==> Split(written.value) == detects + [""]
    {
      ConsistentNoNewlines(State());
      if |detects| > 0 {
        var text := BuildText(detects);
        written := Some(text);
      } else {
        written := None;
      }
    }

    /**
     * One iteration of the loop: every inference result of the frame is
     * processed with the clock reading `now`, then the key polls and the hour
     * decide whether the log is saved and whether the loop goes on.
     */
    method Loop(results: seq<int>, now: Stamp, firstKey: int, secondKey: int)
      returns (running: bool, written: Option<string>)
      requires Valid() && ValidStamp(now)
      modifies this
      ensures Valid()
      ensures State() == Run(old(State()), AtStamp(results, now))
      ensures var b := Choose(firstKey, secondKey, now.hour, old(lastHour));
              && running == (b != Stop)
              && written == (if b == Save || b == HourChanged then FlushOutput(detects) else None)
              && lastHour == (if b == HourChanged && detects != [] then now.hour else old(lastHour))
    {
      ghost var initial := State();
      for i := 0 to |results|
        invariant Valid() && lastHour == old(lastHour)
        invariant State() == Run(initial, AtStamp(results[..i], now))
      {
        RunFrameStep(initial, results, i, now);
        var _ := ResultProcess(results[i], now);
      }
      assert results[..|results|] == results;
      running, written := true, None;
      if KeyByte(firstKey) == SaveKey {
        written := Flush();
      } else if KeyByte(secondKey) == StopKey {
        running := false;
      } else if now.hour != lastHour {
        written := Flush();
        if |detects| > 0 {
          lastHour := now.hour;
        }
      }
    }
  }
}
