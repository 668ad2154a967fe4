/** crewai/linux-performance2.py. Its CPU, memory, disk and network tools format their output
    exactly as those of crewai/linux_performance_debug.py do (only the memory command differs,
    `free -h` instead of `vmstat 1 2`), so they are the same members; this module adds
    `get_top_cpu_processes`, which cuts the process table out of `top`'s output. */
module LinuxPerformance2 {
  import opened Base
  import opened Text
  import opened LinuxPerformanceDebug

  /** `line.strip().startswith("PID ")`. */
  predicate IsPidHeader(line: string)
  {
    StartsWith(Strip(line), "PID ")
  }

  const ProcessWindow: nat := 16
  const RawWindow: nat := 40
  const SortedTitle := "Top CPU Processes (sorted by %CPU):\n"
  const RawTitle := "Top CPU Processes (raw top output):\n"

  /** The index of the first header line, if any. */
  function FirstPidHeader(out: seq<string>): (r: Option<nat>)
    ensures r.Some? ==> r.value < |out|
  {
    if out == [] then None
    else if IsPidHeader(out[0]) then Some(0)
    else match FirstPidHeader(out[1..])
      case None => None
      case Some(i) => Some(i + 1)
  }

  /** `FirstPidHeader` finds a header exactly when there is one, and the one it finds has none
      before it. */
  lemma {:induction false} FirstPidHeaderIsFirst(out: seq<string>)
    ensures FirstPidHeader(out).None? <==> forall j :: 0 <= j < |out| ==> !IsPidHeader(out[j])
    ensures FirstPidHeader(out).Some? ==>
      && FirstPidHeader(out).value < |out|
      && IsPidHeader(out[FirstPidHeader(out).value])
      && forall j :: 0 <= j < FirstPidHeader(out).value ==> !IsPidHeader(out[j])
  {
    if out != [] && !IsPidHeader(out[0]) {
      FirstPidHeaderIsFirst(out[1..]);
      assert forall j :: 1 <= j < |out| ==> out[j] == out[1..][j - 1];
    }
  }

  /** The `for i, line in enumerate(out)` loop that stops at the first header. */
  method FindPidHeader(out: seq<string>) returns (idx: Option<nat>)
    ensures idx.Some? ==> idx.value < |out| && IsPidHeader(out[idx.value])
    ensures idx.Some? ==> forall j :: 0 <= j < idx.value ==> !IsPidHeader(out[j])
    ensures idx.None? ==> forall j :: 0 <= j < |out| ==> !IsPidHeader(out[j])
  {
    idx := None;
    for i := 0 to |out|
      invariant idx.None?
      invariant forall j :: 0 <= j < i ==> !IsPidHeader(out[j])
    {
      if IsPidHeader(out[i]) {
        idx := Some(i);
        break;
      }
    }
  }

  /** The reply for `top`'s output. */
  function TopReport(stdout: string): string
  {
    var out := SplitLines(Strip(stdout));
    match FirstPidHeader(out)
    case None => RawTitle + Join(out[..Min(RawWindow, |out|)], "\n")
    case Some(i) => SortedTitle + Join(out[i..Min(i + ProcessWindow, |out|)], "\n")
  }

  /** `get_top_cpu_processes`. */
  method TopCpuProcesses(top: CommandResult) returns (r: string)
    ensures top.Raised? ==> r == "Error collecting top CPU processes: " + top.error
    ensures top.Completed? ==> r == TopReport(top.stdout)
  {
    if top.Raised? {
      return "Error collecting top CPU processes: " + top.error;
    }
    var out := SplitLines(Strip(top.stdout));
    var pidHeaderIdx := FindPidHeader(out);
    FirstPidHeaderIsFirst(out);
    if pidHeaderIdx.None? {
      return RawTitle + Join(out[..Min(RawWindow, |out|)], "\n");
    }
    var i := pidHeaderIdx.value;
    assert FirstPidHeader(out) == Some(i) by {
      var f := FirstPidHeader(out).value;
      assert !(f < i) && !(i < f);
    }
    var procLines := out[i..Min(i + ProcessWindow, |out|)];
    r := SortedTitle + Join(procLines, "\n");
  }

  /** With a header, the table shows the header line and up to 15 lines after it, in order;
      without one, the first 40 lines. */
  lemma TopReportWindow(stdout: string)
    ensures var out := SplitLines(Strip(stdout));
      match FirstPidHeader(out)
      case None =>
        && (forall j :: 0 <= j < |out| ==> !IsPidHeader(out[j]))
        && TopReport(stdout) == RawTitle + Join(out[..Min(RawWindow, |out|)], "\n")
      case Some(i) =>
        var window := out[i..Min(i + ProcessWindow, |out|)];
        && 1 <= |window| <= ProcessWindow
        && window[0] == out[i] && IsPidHeader(window[0])
        && (forall j :: 0 <= j < i ==> !IsPidHeader(out[j]))
        && (forall k :: 0 <= k < |window| ==> window[k] == out[i + k])
        && TopReport(stdout) == SortedTitle + Join(window, "\n")
  {
    FirstPidHeaderIsFirst(SplitLines(Strip(stdout)));
  }

  /** The lines of the table can be read back from the reply: the shown lines hold no newline,
      so splitting the part after the title on `'\n'` gives them again. */
  lemma TopReportLinesRecoverable(stdout: string, i: nat)
    requires FirstPidHeader(SplitLines(Strip(stdout))) == Some(i)
    ensures var out := SplitLines(Strip(stdout));
      var window := out[i..Min(i + ProcessWindow, |out|)];
      Split(TopReport(stdout)[|SortedTitle|..], '\n') == window
  {
    var out := SplitLines(Strip(stdout));
    FirstPidHeaderIsFirst(out);
    var window := out[i..Min(i + ProcessWindow, |out|)];
    assert forall k :: 0 <= k < |window| ==> '\n' !in window[k];
    SplitJoin(window);
  }
}
