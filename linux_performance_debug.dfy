/** The four CrewAI tools of crewai/linux_performance_debug.py. Each runs a command or reads a
    file under /proc and turns the output into a report; the command results and file contents
    are inputs here, and every exception becomes an `"Error collecting …"` reply. */
module LinuxPerformanceDebug {
  import opened Base
  import opened Text

  /** `subprocess.run(..., capture_output=True, text=True)`: it returns, with an exit code and
      the captured standard output, or raises (a missing program, a timeout) with the text
      `str(e)`. A non-zero exit code does not raise. */
  datatype CommandResult = Completed(returncode: int, stdout: string) | Raised(error: string)

  /** `open(path).read()`, or the exception it raises. */
  datatype FileRead = Contents(text: string) | ReadFailed(error: string)

  // ---- CPU ----

  /** `'Cpu(s)' in line or '%Cpu' in line`. */
  predicate IsCpuLine(line: string)
  {
    Contains(line, "Cpu(s)") || Contains(line, "%Cpu")
  }

  const CpuTitle := "CPU Statistics:\n"
  const CpuUnparsed := "CPU Statistics: Unable to parse CPU data"

  /** The reply built from `top -bn1`'s output. */
  function CpuReport(stdout: string): string
  {
    var cpuLines := Filter(Split(stdout, '\n'), IsCpuLine);
    if cpuLines != [] then CpuTitle + cpuLines[0] else CpuUnparsed
  }

  /** `get_cpu_utilization`. */
  function CpuTool(top: CommandResult): string
  {
    match top
    case Completed(_, stdout) => CpuReport(stdout)
    case Raised(e) => "Error collecting CPU stats: " + e
  }

  /** When some line of the output mentions the CPU, the reply is the title plus the first such
      line. */
  lemma CpuReportFirstLine(stdout: string, i: nat)
    requires i < |Split(stdout, '\n')| && IsCpuLine(Split(stdout, '\n')[i])
    requires forall j :: 0 <= j < i ==> !IsCpuLine(Split(stdout, '\n')[j])
    ensures CpuReport(stdout) == CpuTitle + Split(stdout, '\n')[i]
  {
    FilterFirst(Split(stdout, '\n'), IsCpuLine, i);
  }

  /** The fixed "unable to parse" reply comes exactly when no line mentions the CPU. */
  lemma CpuReportUnparsed(stdout: string)
    ensures CpuReport(stdout) == CpuUnparsed
      <==> forall j :: 0 <= j < |Split(stdout, '\n')| ==> !IsCpuLine(Split(stdout, '\n')[j])
  {
    var lines := Split(stdout, '\n');
    FilterEmpty(lines, IsCpuLine);
    var cpuLines := Filter(lines, IsCpuLine);
    if cpuLines != [] {
      var r := CpuTitle + cpuLines[0];
      assert CpuReport(stdout) == r;
      assert r[15] == '\n';
      assert CpuUnparsed[15] == ' ';
      assert r != CpuUnparsed;
      assert cpuLines[0] in cpuLines;
      var j :| 0 <= j < |lines| && lines[j] == cpuLines[0];
      assert IsCpuLine(Split(stdout, '\n')[j]);
    }
  }

  // ---- Memory ----

  /** `get_memory_usage`: the title and the command's output, verbatim. */
  function MemoryTool(vmstat: CommandResult): string
  {
    match vmstat
    case Completed(_, stdout) => "Memory Statistics:\n" + stdout
    case Raised(e) => "Error collecting memory stats: " + e
  }

  // ---- Disk ----

  const DiskLineLimit: nat := 25

  /** `"loop" not in l`: loop devices are skipped. */
  predicate NotLoop(line: string)
  {
    !Contains(line, "loop")
  }

  /** `[l for l in f.readlines() if "loop" not in l][:25]`. */
  function DiskLines(text: string): seq<string>
  {
    var kept := Filter(ReadLines(text), NotLoop);
    kept[..Min(DiskLineLimit, |kept|)]
  }

  /** The `/proc/diskstats` fallback reply. */
  function DiskFallback(diskstats: FileRead): string
  {
    match diskstats
    case Contents(text) => "Disk I/O Statistics (from /proc/diskstats):\n" + Concat(DiskLines(text))
    case ReadFailed(e) => "Error collecting disk I/O stats: " + e
  }

  /** `get_disk_io`: `iostat` when `which iostat` succeeds, the `/proc/diskstats` lines
      otherwise. */
  function DiskTool(which: CommandResult, iostat: CommandResult, diskstats: FileRead): string
  {
    match which
    case Raised(e) => "Error collecting disk I/O stats: " + e
    case Completed(code, _) =>
      if code == 0 then
        match iostat
        case Completed(_, stdout) => "Disk I/O Statistics:\n" + stdout
        case Raised(e) => "Error collecting disk I/O stats: " + e
      else DiskFallback(diskstats)
  }

  /** The fallback keeps at most 25 lines, each a line of the file that does not mention
      `loop`, in file order; it drops a line that does not mention `loop` only once 25 are
      kept. */
  lemma DiskLinesShape(text: string)
    ensures var kept := DiskLines(text); var all := Filter(ReadLines(text), NotLoop);
      && |kept| == Min(DiskLineLimit, |all|)
      && kept == all[..|kept|]
      && forall k :: 0 <= k < |kept| ==> kept[k] in ReadLines(text) && NotLoop(kept[k])
  {
    var kept := DiskLines(text);
    var all := Filter(ReadLines(text), NotLoop);
    forall k | 0 <= k < |kept|
      ensures kept[k] in ReadLines(text) && NotLoop(kept[k])
    {
      assert kept[k] == all[k] && all[k] in all;
    }
  }

  /** A file of at most 25 lines, none of them about a loop device, is reported verbatim. */
  lemma DiskFallbackVerbatim(text: string)
    requires |ReadLines(text)| <= DiskLineLimit
    requires forall k :: 0 <= k < |ReadLines(text)| ==> NotLoop(ReadLines(text)[k])
    ensures DiskFallback(Contents(text)) == "Disk I/O Statistics (from /proc/diskstats):\n" + text
  {
    var lines := ReadLines(text);
    assert DiskLines(text) == lines by {
      FilterKeepsAll(lines, NotLoop);
      assert lines[..Min(DiskLineLimit, |lines|)] == lines;
    }
    ConcatReadLines(text);
  }

  // ---- Network ----

  /** `get_network_stats`: `ip -s link` when it exits with 0, `/proc/net/dev` otherwise. */
  function NetworkTool(ip: CommandResult, netdev: FileRead): string
  {
    match ip
    case Raised(e) => "Error collecting network stats: " + e
    case Completed(code, stdout) =>
      if code == 0 then "Network Statistics:\n" + stdout
      else
        match netdev
        case Contents(text) => "Network Statistics (from /proc/net/dev):\n" + text
        case ReadFailed(e) => "Error collecting network stats: " + e
  }

  /** `text` is `title` followed by `output`. */
  predicate Titled(text: string, title: string, output: string)
  {
    StartsWith(text, title) && text[|title|..] == output
  }

  /** The memory, `iostat`, `ip` and `/proc/net/dev` replies carry the output verbatim after
      their title, and the network reply takes `/proc/net/dev` exactly when `ip` exits with a
      non-zero code. */
  lemma VerbatimReports(run: CommandResult, other: CommandResult, read: FileRead)
    requires run.Completed?
    ensures Titled(MemoryTool(run), "Memory Statistics:\n", run.stdout)
    ensures other.Completed? && other.returncode == 0 ==>
      Titled(DiskTool(other, run, read), "Disk I/O Statistics:\n", run.stdout)
    ensures run.returncode == 0 ==> Titled(NetworkTool(run, read), "Network Statistics:\n", run.stdout)
    ensures run.returncode != 0 && read.Contents? ==>
      Titled(NetworkTool(run, read), "Network Statistics (from /proc/net/dev):\n", read.text)
  {
  }

  /** No tool raises: a failed command or read becomes the tool's `"Error collecting …: "`
      reply followed by the exception's text, whichever call of the tool fails. */
  lemma FailuresAreReported(which: CommandResult, run: CommandResult, read: FileRead)
    ensures run.Raised? ==> CpuTool(run) == "Error collecting CPU stats: " + run.error
    ensures run.Raised? ==> MemoryTool(run) == "Error collecting memory stats: " + run.error
    ensures which.Raised? ==> DiskTool(which, run, read) == "Error collecting disk I/O stats: " + which.error
    ensures which.Completed? && which.returncode == 0 && run.Raised? ==>
      DiskTool(which, run, read) == "Error collecting disk I/O stats: " + run.error
    ensures which.Completed? && which.returncode != 0 && read.ReadFailed? ==>
      DiskTool(which, run, read) == "Error collecting disk I/O stats: " + read.error
    ensures run.Raised? ==> NetworkTool(run, read) == "Error collecting network stats: " + run.error
    ensures run.Completed? && run.returncode != 0 && read.ReadFailed? ==>
      NetworkTool(run, read) == "Error collecting network stats: " + read.error
  {
  }
}
