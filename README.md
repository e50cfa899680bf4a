# Trash detector: deduplicated detection log

This project models the part of the trash detector that the repository writes
itself: the `TrashDetector` state machine that turns per-frame object counts
into a log of labels. Two variants share it. The desktop variant is in
`trashdetector/__init__.py` and the Raspberry Pi variant in
`raspberrypi/trashdetector/__init__.py`. The object detector, the camera, the
window and the file system are around this state machine and are not modelled.

Each inference result (a count of objects) is handled by `resultProcess`:

- With no objects, the last count drops to 0.
- With objects, a label `MM/DD HH:MM, <count>` is built from the clock.
- The label is appended to the log, and the count is remembered, only when
  the count differs from the last one AND the label is not in the log yet.
- A save writes every label followed by a newline. It never clears the log.

The desktop loop saves on the `q` key, stops on the `p` key, and otherwise
saves when the hour has changed. It advances its saved hour only if there was
something to save. The Pi variant saves on a configurable print key and
latches itself off on a configurable stop key.

Modules:

- `Wrappers` (`wrappers.dfy`): the `Option` type.
- `Labels` (`labels.dfy`): the decimal rendering, the zero-padded fields, the
  label, and a parser that reads a label back.
- `Records` (`records.dfy`): the saved text, Python's `split("\n")`, and the
  concatenation loop that builds the text.
- `Dedup` (`dedup.dfy`): the log state `Session`, one step `Process`, runs of
  steps `Run`, the invariant `Consistent`, the scan `IsPresent`, and the
  lemmas about them.
- `Desktop` (`desktop.dfy`) and `RaspberryPi` (`raspberrypi.dfy`): the two
  `TrashDetector` classes. Their methods update the fields in place and are
  proved against `Process`, `Run` and `FlushOutput`.

The clock is a parameter. Each call gets one `Stamp` (month, day, hour,
minute) in place of the system time. A key press is a parameter too. For the
desktop loop this is the two integer codes its two `cv2.waitKey` polls return.
For the Pi handler it is the key name.

`lastCount` is not simply the last non-zero count observed. The code changes
it only when a label is appended or when a frame has no objects. So it stays
stale when the label is already in the log, and the model follows the code.

## Model

| member | source | states |
|---|---|---|
| `Labels.Decimal` | trashdetector/__init__.py:63 | `str` of a count is a non-empty digit string with no leading zero (except for 0), one digit exactly below ten |
| `Labels.DecimalRoundTrip` | trashdetector/__init__.py:63 | reading the decimal rendering back gives the number |
| `Labels.Pad2` | trashdetector/__init__.py:63 | a clock field below 100 is exactly two digits, led by `0` exactly when it is below ten, and reads back to its value |
| `Labels.Label` | trashdetector/__init__.py:63 | a label has no newline and is at least 14 characters long |
| `Labels.LabelLayout` | trashdetector/__init__.py:63 | for a valid clock reading the label has the two-digit month, day, hour and minute at positions 0, 3, 6 and 9, `/`, space, `:` and `", "` between them, and the count from position 13 exactly as `str` writes it |
| `Labels.LabelRoundTrip` | trashdetector/__init__.py:63 | for a valid clock reading the label is two-digit month, `/`, day, space, hour, `:`, minute, `", "`, count, and parses back to exactly that reading and count; the count is written exactly as `Decimal` (Python's `str`) writes it |
| `Labels.LabelInjective` | raspberrypi/trashdetector/__init__.py:60 | two labels are equal if and only if their clock readings and counts are equal |
| `Records.Split` | trashdetector/__init__.py:122-134 | Python's `split("\n")` always gives at least one piece, and no piece has a newline |
| `Records.SerializeSnoc` | trashdetector/__init__.py:124-125 | appending a label to the log appends that label and a newline to the saved text |
| `Records.SplitSerialize` | trashdetector/__init__.py:122-134 | splitting the saved text on newlines gives the log back followed by one empty piece |
| `Records.FlushOutput` | trashdetector/__init__.py:111-140 | a save writes nothing exactly when the log is empty; otherwise the written text, split on newlines, is exactly the log followed by the empty piece after the final newline |
| `Records.BuildText` | trashdetector/__init__.py:123-125 | the concatenation loop produces each label followed by a newline, in log order |
| `Dedup.Process` | trashdetector/__init__.py:51-85 | one step only appends to the log, by one label exactly when objects are present, the count changed and the label is new; it then remembers that count; with no objects the count becomes 0; otherwise nothing changes |
| `Dedup.ConsistentNoNewlines` | trashdetector/__init__.py:122-126 | no entry of a consistent log contains a newline, so each entry is saved as exactly one line |
| `Dedup.IsPresent` | trashdetector/__init__.py:69-73 | the flag-setting scan is true exactly when the label is in the log |
| `Dedup.ProcessConsistent` | trashdetector/__init__.py:66-80 | a step keeps the log free of duplicates, keeps every entry a well-formed label, and keeps a non-zero last count equal to the count of the last entry |
| `Dedup.RunConsistent` | raspberrypi/trashdetector/__init__.py:63-77 | any sequence of steps keeps that invariant |
| `Dedup.RunAppendOnly` | raspberrypi/trashdetector/__init__.py:66-76 | over any sequence of steps the old log is a prefix of the new one, and grows by at most one label per step |
| `Dedup.RunSteadyCount` | trashdetector/__init__.py:66 | while every count equals the last logged non-zero count, nothing changes, whatever the clock says |
| `Dedup.ProcessIdempotent` | trashdetector/__init__.py:63-85 | the same result processed twice in a row changes nothing the second time |
| `Dedup.ZeroResets` | trashdetector/__init__.py:82-85 | after a frame with no objects, a positive count is logged exactly when its label is new |
| `Dedup.SameMinuteNewCount` | trashdetector/__init__.py:63-80 | in the same minute, a different new count after a logged one is logged too, and both labels end up in order |
| `Dedup.ScenarioSameMinute` | trashdetector/__init__.py:51-85 | counts 1, 1, 2 in one minute log the labels for 1 and for 2 |
| `Dedup.ScenarioSteadyAcrossMinutes` | trashdetector/__init__.py:51-85 | counts 0, 3, then 3 a minute later log only the first 3 |
| `Dedup.ScenarioLabelText` | trashdetector/__init__.py:63 | the label for 9:00 on 7 March with one object is exactly `03/07 09:00, 1` |
| `Desktop.KeyByte` | trashdetector/__init__.py:108 | `code & 0xFF` lies in 0..255 and agrees with the code modulo 256 |
| `Desktop.Choose` | trashdetector/__init__.py:108-151 | the save branch is taken if and only if the first poll is `q`; stop if and only if it is not and the second poll is `p`; the hour branch if and only if neither key matched and the hour differs |
| `Desktop.TrashDetector.constructor` | trashdetector/__init__.py:25-35 | a new detector has an empty log, last count 0 and the current hour |
| `Desktop.TrashDetector.ResultProcess` | trashdetector/__init__.py:51-85 | the new log state is `Process` of the old one, the invariant is kept, and the snapshot/notification flag is set exactly when a label is appended |
| `Desktop.TrashDetector.Flush` | trashdetector/__init__.py:111-140 | the save writes `FlushOutput` of the log, which split on newlines is the log followed by one empty piece; the log is not changed |
| `Desktop.TrashDetector.Loop` | trashdetector/__init__.py:87-186 | all results of the frame are processed in order; it returns false only on the stop branch; it saves on the save and hour branches; the saved hour advances only on the hour branch with a non-empty log |
| `RaspberryPi.TrashDetector.constructor` | raspberrypi/trashdetector/__init__.py:25-42 | a new detector is running, with an empty log, last count 0, the current hour and the given key names |
| `RaspberryPi.TrashDetector.ResultProcess` | raspberrypi/trashdetector/__init__.py:48-82 | the new log state is `Process` of the old one, the invariant is kept, and the snapshot flag is set exactly when a label is appended |
| `RaspberryPi.TrashDetector.CheckKeypress` | raspberrypi/trashdetector/__init__.py:84-124 | the print key saves the log and leaves it unchanged; the stop key turns the detector off; other keys change nothing; once off it stays off |
| `RaspberryPi.TrashDetector.Loop` | raspberrypi/trashdetector/__init__.py:126-148 | all results of the frame are processed in order, and the running flag is returned unchanged |

## Left out

- Object detection (YOLO and torch) is an external library. Its result is
  modelled only as the per-result object count.
- Drawing the bounding boxes, `cv2.imwrite`, `cv2.imshow` and `cv2.waitKey`
  are image I/O and UI. A saved snapshot is the `logged` flag of
  `ResultProcess`, and the key polls are parameters.
- The desktop notification (`notify`) is a foreign call. It fires with the
  snapshot, so it is also the `logged` flag.
- The system clock is a parameter, and the model reads one clock value per
  label. The source reads the clock twice per field: once for the padding
  test and once for the digits. A tick between those two reads can log a
  label with a one- or three-digit field (minute 9 to 10 gives `HH:010`,
  minute 59 to 0 gives `HH:0`). The model's invariant that every entry is a
  well-formed label (`Dedup.Consistent`, `Labels.LabelRoundTrip`) rules such
  labels out by construction. The duplicate-free and append-only properties
  do not depend on it.
- The snapshot file name (the Unix time in seconds) is not modelled.
- Console output (the banner lines, the printed labels, "No Detection") is
  not modelled.
- Creating the `output` directory and the exclusive-create-then-overwrite
  file open are file-system I/O. A save is modelled as the text it writes.
  The record file name (`savename`) is not modelled.
- `raspberrypi/trashdetector/camera.py` (the capture thread) and
  `raspberrypi/main.py` (the driver loop) are not part of this model.
- The Pi's `keyboard.on_press` registration runs the handler on its own
  thread. `CheckKeypress` is modelled as a plain call between loop
  iterations, so races with `resultProcess` are not captured.
- The Pi stop key also stops the camera (`video.stop()`). Only the `start`
  flag is modelled.
- The clock is assumed to give month 1-12, day 1-31, hour 0-23 and minute
  0-59 (`ValidStamp`). The label invariant relies on these ranges.
