/**
 * The Raspberry Pi detector: the same log state and deduplication step, a
 * key handler that saves the log or latches the detector off, and a loop
 * iteration that reports whether the detector is still running.
 */
module RaspberryPi {
  import opened Wrappers
  import opened Labels
  import opened Records
  import opened Dedup

  class TrashDetector {
    var detects: seq<string>
    var lastCount: int
    var lastHour: int
    var start: bool
    const stopKey: string
    const printKey: string

    ghost predicate Valid()
      reads this
    {
      Consistent(Session(detects, lastCount))
    }

    function State(): Session
      reads this
    {
      Session(detects, lastCount)
    }

    /** A fresh, running detector with an empty log and the given key names. */
    constructor (hour: int, stopKey: string, printKey: string)
      ensures Valid()
      ensures State() == Empty && lastHour == hour && start
      ensures this.stopKey == stopKey && this.printKey == printKey
    {
      detects := [];
      lastCount := 0;
      lastHour := hour;
      start := true;
      this.stopKey := stopKey;
      this.printKey := printKey;
    }

    /**
     * One inference result: `logged` says whether the snapshot was saved,
     * which happens exactly when a label is appended.
     */
    method ResultProcess(objects: int, now: Stamp) returns (logged: bool)
      requires Valid() && ValidStamp(now)
      modifies this`detects, this`lastCount
      ensures Valid()
      ensures State() == Process(old(State()), Sample(objects, now))
      ensures logged == Logs(old(State()), Sample(objects, now))
    {
      ProcessConsistent(State(), Sample(objects, now));
      logged := false;
      if objects > 0 {
        var entry := Label(now, objects);
        if objects != lastCount {
          var isPresent := IsPresent(detects, entry);
          if !isPresent {
            detects := detects + [entry];
            lastCount := objects;
            logged := true;
          }
        }
      } else {
        lastCount := 0;
      }
    }

    /**
     * A key press. The print key saves the log (nothing for an empty log); the
     * stop key, when it is not also the print key, switches the detector off;
     * any other key does nothing. The log is never changed, and once off the
     * detector stays off.
     */
    method CheckKeypress(name: string) returns (written: Option<string>)
      requires Valid()
      modifies this`start
      ensures Valid()
      ensures name == printKey ==> written == FlushOutput(detects) && start == old(start)
      ensures name == printKey && written.Some? ==> Split(written.value) == detects + [""]
      ensures name != printKey && name == stopKey ==> written == None && !start
      ensures name != printKey && name != stopKey ==> written == None && start == old(start)
      ensures !old(start) ==> !start
    {
      written := None;
      if name == printKey {
        ConsistentNoNewlines(State());
        if |detects| > 0 {
          var text := BuildText(detects);
          written := Some(text);
        }
      } else if name == stopKey {
        start := false;
      }
    }

    /**
     * One iteration of the loop: every inference result of the frame is
     * processed with the clock reading `now`; the result is the running flag,
     * which the loop itself never changes.
     */
    method Loop(results: seq<int>, now: Stamp) returns (running: bool)
      requires Valid() && ValidStamp(now)
      modifies this`detects, this`lastCount
      ensures Valid()
      ensures State() == Run(old(State()), AtStamp(results, now))
      ensures running == start
    {
      ghost var initial := State();
      for i := 0 to |results|
        invariant Valid()
        invariant State() == Run(initial, AtStamp(results[..i], now))
      {
        RunFrameStep(initial, results, i, now);
        var _ := ResultProcess(results[i], now);
      }
      assert results[..|results|] == results;
      running := start;
    }
  }
}
