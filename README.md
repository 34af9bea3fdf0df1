# Prosthesis Registry & TUG — a Dafny model of the TUG session and report formatting

The app records a patient's Timed Up and Go (TUG) test: a stopwatch is
started and stopped up to three times, each elapsed time goes into the
first of three trial slots that is still empty, and the app keeps the
average of the trials that were taken together with a fall-risk status
(high risk at or above 13.5 s). The exported report shows the patient's
comorbidities as one cell and is downloaded as `Report_<HN>.html`.

This project models that logic in three modules:

- `TugMath` (`tug_math.dfy`): pure functions. `Positives` is the filter
  that keeps only trials above zero. `Average` is the mean of the kept
  trials, or 0.0 when there are none. `Classify` is the status, written
  as the datatype `Unset | Normal | HighFallRisk` instead of the app's
  strings (`"-"` and the Thai/emoji labels). `FirstEmpty` and
  `FillFirstEmpty` say which slot a new reading goes into. Lemmas state
  what the average means (it lies between the smallest and largest trial
  taken) and that the cut-off is inclusive.
- `TugSessionModel` (`tug_session.dfy`): the class `TugSession`. Its
  fields are the session-state keys `tug_running`, `start_time`, `t1`,
  `t2`, `t3`, `tug_avg` and `tug_status`. Its methods are the Start, Stop,
  Reset and manual-edit handlers and `calculate_tug`. Each mutating method
  states the whole new state. `Consistent()` says that the stored average
  and status are the ones the trials give. Start keeps it; the others
  establish it. `ThreeTimedRuns` is a
  client that runs the 12.1 s / 14.0 s / 13.0 s example through the
  contracts alone.
- `ReportFormat` (`report_format.dfy`): the comorbidity cell and the
  download file name. Each has an inverse, `ParseCell` and `FileNameHn`,
  and a round-trip lemma.

Durations are Dafny `real`s, so averaging and the 13.5 comparison are
exact. The wall clock (`time.time()`) is the parameter `now` of `Start`
and `Stop`.

How the app behaves, as the model records it:

- Reset clears the trials, the average and the status. It leaves
  `tug_running` and `start_time` as they were (streamlit_app.py:234-239).
  It can only be reached while the stopwatch is stopped, because the page
  re-runs at line 215 before the button is drawn.
- `st.number_input` at lines 229-231 has no minimum, so a slot may hold a
  negative number. Such a slot counts as filled for Stop, which tests
  `== 0`. The average leaves it out, because the filter tests `> 0`.
- Start and Stop are only offered in the matching state (lines 197 and
  217). The model writes this as `requires !tugRunning` or
  `requires tugRunning`, not as a run-time no-op.
- The unset `start_time` (`None`) is modelled as `0.0`. It is never read
  while the stopwatch is stopped.
- The trial keys `t1`, `t2` and `t3` are also the keys of the three trial
  boxes. `FirstRefused` states Streamlit's rule for this: assigning to a box's
  key after the box has been drawn in the same run raises an error. The
  clear-all handler breaks that rule (see "## Findings"). Stop's assignments
  come before the boxes are drawn, so they all go through.

## Model

| member | source | states |
|---|---|---|
| TugMath.Positives | streamlit_app.py:59 | the kept trials are exactly the slots above zero (membership both ways); none are kept exactly when every slot is zero or below |
| TugMath.Sum | streamlit_app.py:61 | a non-empty list of positive durations has a positive sum |
| TugMath.Mean | streamlit_app.py:61 | the mean times the count is the sum; the mean of positive durations is positive; the empty list gives 0.0 |
| TugMath.Average | streamlit_app.py:57-62 | 0.0 when no trial is positive (line 68), and positive otherwise |
| TugMath.Classify | streamlit_app.py:63-69 | Unset exactly when no trial is positive, which is exactly when the average is 0.0; otherwise High Fall Risk exactly when the average is at least 13.5 |
| TugMath.MeanBetween | streamlit_app.py:61 | the mean of a non-empty list lies between any lower and upper bound of its elements |
| TugMath.AverageBetween | streamlit_app.py:59-62 | the average lies between any bounds of the trials that were taken; zero slots do not pull it down |
| TugMath.AllTrialsSlow | streamlit_app.py:63-64 | if every trial taken is at or above 13.5 s, the status is High Fall Risk |
| TugMath.AllTrialsFast | streamlit_app.py:65-66 | if every trial taken is below 13.5 s, the status is Normal |
| TugMath.SameTimeEveryTrial | streamlit_app.py:63-66 | when all trials taken have the same time x, the average is x and the status is High Fall Risk exactly when x >= 13.5, so the boundary is inclusive |
| TugMath.ExampleRunsAreNormal | streamlit_app.py:59-66 | trials 12.1, 14.0 and 13.0 average exactly 39.1 / 3 and classify as Normal |
| TugMath.PositivesMultiplicity | streamlit_app.py:59 | each value above zero is kept as many times as it occurs in the slots, and every other value is dropped |
| TugMath.ThreeSlotAverage | streamlit_app.py:59-62 | for three slots, the average is the total of the positive slots over their number, and 0.0 when none is positive |
| TugMath.AverageOfPositivesOnly | streamlit_app.py:59-61 | filtering is idempotent, and the average of the filtered trials equals the average of all slots |
| TugMath.ThreeSlotFilter | streamlit_app.py:59-61 | for the three slots, the filter's length is the number of positive slots and its sum is their total |
| TugMath.FirstEmpty | streamlit_app.py:207-209 | the slot chosen still holds 0 and every earlier slot is non-zero; it is the list length when no slot is 0 |
| TugMath.FillFirstEmpty | streamlit_app.py:206-209 | the reading replaces the first zero slot and nothing else; when no slot is zero the trials are unchanged |
| TugMath.SlotFillOrder | streamlit_app.py:207-209 | three non-zero readings from empty slots land in slots 1, 2, 3 in that order, and a fourth changes nothing |
| TugSessionModel.TugSession.constructor | streamlit_app.py:44-46 | the defaults: stopped, start time 0, all trials 0, average 0, status Unset, consistent |
| TugSessionModel.TugSession.CalculateTug | streamlit_app.py:57-69 | afterwards the stored average and status are those of the current trials; only those two fields change |
| TugSessionModel.TugSession.Start | streamlit_app.py:217-222 | only while stopped; sets the start time to now and the running flag; leaves trials, average and status as they were |
| TugSessionModel.TugSession.Stop | streamlit_app.py:203-210 | only while running; clears the running flag, records now minus the start time into the first empty slot (or drops it), and leaves average and status consistent with the new trials |
| TugSessionModel.TugSession.EditTrial | streamlit_app.py:229-231 | the edited slot takes the typed value, the other slots are unchanged, and the result is recomputed |
| TugSessionModel.TugSession.Reset | streamlit_app.py:234-239 | all three slots 0, average 0, status Unset, running flag and start time untouched |
| TugSessionModel.FirstRefused | streamlit_app.py:229-235 | the first assignment whose key belongs to a widget already drawn in the run, with every earlier one allowed; the list length when all are allowed |
| TugSessionModel.Accepted | streamlit_app.py:229-235 | the assignments that take effect are exactly those before the first refused one, and none of them is to a drawn widget's key |
| TugSessionModel.StopWrites | streamlit_app.py:204-210 | Stop assigns the running flag first, then the key of the first empty slot when there is one (three assignments when every slot is taken), then the result; no other trial key is assigned |
| TugSessionModel.ResetAsWrittenIsRefused | streamlit_app.py:229-235 | as written, the clear-all handler's first assignment (slot 1, after the boxes are drawn) is refused, and no assignment takes effect |
| TugSessionModel.ResetBeforeBoxesGoesThrough | streamlit_app.py:234-238 | made before the boxes are drawn, all five clear-all assignments go through |
| TugSessionModel.StopGoesThrough | streamlit_app.py:203-210 | Stop's handler comes before the boxes, so all its assignments take effect, with or without a free slot; after the boxes only the running flag would change when a slot is free |
| ReportFormat.Join | streamlit_app.py:107 | no items give "", one item gives that item, two or more contain a comma, and the text starts with the first item |
| ReportFormat.JoinSnoc | streamlit_app.py:107 | adding an item at the end appends ", " and that item |
| ReportFormat.JoinLength | streamlit_app.py:107 | the joined length is the items' total length plus two per separator |
| ReportFormat.ComorbidityCell | streamlit_app.py:107 | "-" for an empty list, the item itself for one item; it is "-" only for [] or ["-"] |
| ReportFormat.SplitJoin | streamlit_app.py:107 | splitting the joined text of comma-free items gives the items back |
| ReportFormat.CellRoundTrip | streamlit_app.py:107 | the list of comma-free items other than "-" can be read back from the cell, the empty list included |
| ReportFormat.ReportFileName | streamlit_app.py:160 | the name starts with "Report_", ends with ".html", and has the HN's length in between, or the length of "Unknown" for an empty HN |
| ReportFormat.FileNameRoundTrip | streamlit_app.py:160 | the HN read back from the name is the HN, or "Unknown" when it was empty |
| ReportFormat.FileNameCollisions | streamlit_app.py:160 | two HNs get the same file name exactly when they are equal, or one is empty and the other is "Unknown" |

## Left out

- The Streamlit page is not modelled: widgets, tabs, CSS, the print
  preview dialog and its empty-HN warning (lines 10-28 and 141-250, apart
  from the handlers at 203-210, 220-222, 229-231 and 234-239). It is
  rendering only.
- TugSessionModel.TugSession.Reset assumes the handler may assign the
  trial keys. As written, the assignment at line 235 comes after the boxes
  at lines 229-231 are drawn in the same run, so Streamlit raises an error
  there and nothing is cleared (see "## Findings").
- Streamlit's clean-up of widget keys is not modelled. In a run that calls
  `st.rerun()` at line 215 or 223, line 229 is never reached, so the boxes
  are not drawn in that run. The model keeps `t1`, `t2` and `t3` as
  ordinary stored values throughout. The slot-fill order and the averaging
  across runs assume the three keys survive those runs. If they were
  dropped, lines 49-51 would recreate them as 0.0. Stop would then always
  fill slot 1, and the stored average and status would be stale.
- The live stopwatch display, `time.sleep(0.1)` and `st.rerun()` (lines
  199-200 and 213-215) are left out. They are wall-clock polling and
  refresh; the clock value is the `now` parameter.
- TugSessionModel.TugSession.Stop assumes the clock does not run
  backwards (`now >= startTime`). A backwards jump of `time.time()` would
  record a negative time, and the model does not cover that case.
- The HTML template is not modelled: its text, the font link,
  `window.print()` and the `datetime.now()` print stamp (lines 73-135).
  Only the comorbidity join is specified.
- The UTF-8 encoding through `io.BytesIO` (line 159) is left out. It is a
  library call.
- IEEE double arithmetic and the `:.2f` rendering of the average are left
  out. Durations are exact reals.
- The Thai and emoji status strings are left out. They are replaced by
  the `TugStatus` datatype.
- The option lists of the intake form widgets (lines 172-190) are left
  out. They are stored data with no behaviour. `CellRoundTrip` covers any
  comorbidity names without a comma, and the app's three names have none.

## Findings

| source | as written | input that shows it | evidently intended | confidence | as-written member | corrected member |
|---|---|---|---|---|---|---|
| streamlit_app.py:229-238 | the clear-all button is handled below the three trial boxes, and its handler assigns `t1`, `t2` and `t3`, the keys of those boxes | press the clear-all button with any trials recorded: the assignment to `t1` at line 235 comes after the box with key `t1` is drawn in that run, Streamlit raises an error, and the trials, average and status stay as they were | the button empties all three slots and the result, e.g. with the assignments in an `on_click` callback, which runs before the boxes are drawn | not executed | TugSessionModel.ResetAsWrittenIsRefused | TugSessionModel.TugSession.Reset, TugSessionModel.ResetBeforeBoxesGoesThrough |
