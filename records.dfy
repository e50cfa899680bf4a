/**
 * The text a flush writes to the record file: every label followed by a
 * newline, in log order. Both detector variants build it by the same loop of
 * string concatenation.
 */
module Records {
  import opened Wrappers

  /** The file contents for a log: `d + "\n"` for each label `d`, in order. */
  function Serialize(lines: seq<string>): string {
    if lines == [] then "" else lines[0] + "\n" + Serialize(lines[1..])
  }

  lemma {:induction false} SerializeSnoc(lines: seq<string>, d: string)
    ensures Serialize(lines + [d]) == Serialize(lines) + d + "\n"
  {
    if lines != [] {
      assert (lines + [d])[1..] == lines[1..] + [d];
      SerializeSnoc(lines[1..], d);
    }
  }

  predicate NoNewlines(lines: seq<string>) {
    forall i :: 0 <= i < |lines| ==> '\n' !in lines[i]
  }

  /** Python's `text.split("\n")`: the pieces between newlines, at least one. */
  function Split(text: string): (pieces: seq<string>)
    ensures 1 <= |pieces| && NoNewlines(pieces)
  {
    if text == [] then [""]
    else if text[0] == '\n' then [""] + Split(text[1..])
    else
      var rest := Split(text[1..]);
      [[text[0]] + rest[0]] + rest[1..]
  }

  lemma {:induction false} SplitLine(d: string, rest: string)
    requires '\n' !in d
    ensures Split(d + "\n" + rest) == [d] + Split(rest)
  {
    if d == [] {
      assert d + "\n" + rest == "\n" + rest;
    } else {
      assert (d + "\n" + rest)[1..] == d[1..] + "\n" + rest;
      SplitLine(d[1..], rest);
      assert [d[0]] + d[1..] == d;
    }
  }

  /**
   * Splitting the file contents on newlines gives the log back, followed by
   * the empty piece after the last newline.
   */
  lemma {:induction false} SplitSerialize(lines: seq<string>)
    ensures NoNewlines(lines) ==> Split(Serialize(lines)) == lines + [""]
  {
    if lines != [] && NoNewlines(lines) {
      assert NoNewlines(lines[1..]);
      SplitSerialize(lines[1..]);
      SplitLine(lines[0], Serialize(lines[1..]));
    }
  }

  /**
   * What a flush writes: nothing when the log is empty (the detector only
   * reports that there was no detection), else the serialised log: split on
   * newlines it gives the log's labels and the empty piece after the final
   * newline.
   */
  function FlushOutput(detects: seq<string>): (written: Option<string>)
    ensures written.None? <==> detects == []
    ensures written.Some? && NoNewlines(detects) ==> Split(written.value) == detects + [""]
  {
    if detects == [] then None
    else
      SplitSerialize(detects);
      Some(Serialize(detects))
  }

  /** The concatenation loop that builds the text written to the record file. */
  method BuildText(detects: seq<string>) returns (text: string)
    ensures text == Serialize(detects)
  {
    text := "";
    for i := 0 to |detects|
      invariant text == Serialize(detects[..i])
    {
      assert detects[..i + 1] == detects[..i] + [detects[i]];
      SerializeSnoc(detects[..i], detects[i]);
      text := text + detects[i] + "\n";
    }
    assert detects[..|detects|] == detects;
  }
}
