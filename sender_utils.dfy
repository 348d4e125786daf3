/** Starting the game on the host and finding its window
    (src/services/sender_utils.rs): the game is launched from its .exe path,
    then the process list is searched for that path and the window list for a
    visible window of the process found, each for a bounded number of
    retries. The process table, the window list and the spawn are inputs. */
module SenderUtils {
  import opened Outcomes
  import opened Text

  const HANDLER_RETRIES: nat := 8
  const EXE_SUFFIX := ".exe"

  const INIT_GAME_ERROR := "Error initializing game"
  const FILE_TYPE_ERROR := "Error type of file not supported"
  const PID_ERROR := "Process PID not found after retries"
  const HWND_ERROR := "Process HWND not found after retries"

  // ---------------------------------------------------------------------------
  // initialize_game

  /** `initialize_game`, given whether spawning the program succeeds: only a
      path ending in ".exe" is started. */
  function InitializeGame(gamePath: string, spawned: bool): (r: Outcome<Unit>)
    ensures r.Ok? <==> EndsWith(gamePath, EXE_SUFFIX) && spawned
    ensures !EndsWith(gamePath, EXE_SUFFIX) ==> r == Err(IoError(Other, FILE_TYPE_ERROR))
    ensures EndsWith(gamePath, EXE_SUFFIX) && !spawned ==> r == Err(IoError(Other, INIT_GAME_ERROR))
  {
    if EndsWith(gamePath, EXE_SUFFIX) then
      if spawned then Ok(Unit) else Err(IoError(Other, INIT_GAME_ERROR))
    else Err(IoError(Other, FILE_TYPE_ERROR))
  }

  /** Shortcuts are not started, whatever their extension. */
  lemma ShortcutsAreRejected(name: string, spawned: bool)
    ensures InitializeGame(name + ".lnk", spawned) == Err(IoError(Other, FILE_TYPE_ERROR))
    ensures InitializeGame(name + ".url", spawned) == Err(IoError(Other, FILE_TYPE_ERROR))
    ensures InitializeGame(name + ".exe", spawned).Ok? <==> spawned
  {
    var lnk := name + ".lnk";
    assert lnk[|lnk| - 4..] == ".lnk";
    var url := name + ".url";
    assert url[|url| - 4..] == ".url";
    var exe := name + ".exe";
    assert exe[|exe| - 4..] == ".exe";
  }

  // ---------------------------------------------------------------------------
  // The path normalisation of get_handler

  /** `s.replace("\\\\", "\\")`: every pair of backslashes, read from the left
      without overlap, becomes one backslash. */
  function CollapseBackslashPairs(s: string): (r: string)
    ensures |r| <= |s|
    decreases |s|
  {
    if |s| >= 2 && s[0] == '\\' && s[1] == '\\' then "\\" + CollapseBackslashPairs(s[2..])
    else if s == [] then []
    else [s[0]] + CollapseBackslashPairs(s[1..])
  }

  /** The escaped form of a path, as it appears when every backslash is
      written twice. */
  function EscapeBackslashes(s: string): (r: string)
    ensures |r| >= |s|
  {
    if s == [] then []
    else if s[0] == '\\' then "\\\\" + EscapeBackslashes(s[1..])
    else [s[0]] + EscapeBackslashes(s[1..])
  }

  /** Normalising an escaped path gives the path back. */
  lemma {:induction false} CollapseOfEscaped(s: string)
    ensures CollapseBackslashPairs(EscapeBackslashes(s)) == s
    decreases |s|
  {
    if s != [] {
      CollapseOfEscaped(s[1..]);
      var rest := EscapeBackslashes(s[1..]);
      if s[0] == '\\' {
        var e := "\\\\" + rest;
        assert e[2..] == rest;
      } else {
        var e := [s[0]] + rest;
        assert e[1..] == rest;
        assert s == [s[0]] + s[1..];
      }
    }
  }

  /** A path without two backslashes in a row is left as it is. */
  lemma {:induction false} CollapseKeepsSinglePaths(s: string)
    requires forall i :: 0 <= i < |s| - 1 ==> !(s[i] == '\\' && s[i + 1] == '\\')
    ensures CollapseBackslashPairs(s) == s
    decreases |s|
  {
    if s != [] {
      assert !(|s| >= 2 && s[0] == '\\' && s[1] == '\\');
      assert forall i :: 0 <= i < |s[1..]| - 1 ==> !(s[1..][i] == '\\' && s[1..][i + 1] == '\\') by {
        forall i | 0 <= i < |s[1..]| - 1
          ensures !(s[1..][i] == '\\' && s[1..][i + 1] == '\\')
        {
          assert s[1..][i] == s[i + 1] && s[1..][i + 1] == s[i + 2];
        }
      }
      CollapseKeepsSinglePaths(s[1..]);
      assert s == [s[0]] + s[1..];
    }
  }

  // ---------------------------------------------------------------------------
  // get_processes_info

  /** The executable path sysinfo reports for a process: none, one that is
      not valid Unicode, or a path. */
  datatype ExePath = NoExe | NonUnicodePath | ExePath(path: string)

  /** One entry of the process table, in the order the table is iterated. */
  datatype SystemProcess = SystemProcess(pid: nat, exe: ExePath)

  datatype ProcessInfo = ProcessInfo(pid: nat, path: string)

  /** The processes `get_processes_info` lists: those with a Unicode
      executable path, in table order. */
  function Candidates(system: seq<SystemProcess>): (ps: seq<ProcessInfo>)
    ensures |ps| <= |system|
  {
    if system == [] then []
    else
      var rest := Candidates(system[1..]);
      match system[0].exe
      case ExePath(path) => [ProcessInfo(system[0].pid, path)] + rest
      case _ => rest
  }

  /** A listed process is exactly a table entry with a Unicode path: entries
      without an executable path, or with one that is not Unicode, are never
      candidates. */
  lemma {:induction false} CandidatesAreProcessesWithPath(system: seq<SystemProcess>, p: ProcessInfo)
    ensures p in Candidates(system) <==> SystemProcess(p.pid, ExePath(p.path)) in system
    decreases |system|
  {
    if system != [] {
      CandidatesAreProcessesWithPath(system[1..], p);
      assert system == [system[0]] + system[1..];
    }
  }

  /** `get_processes_info`: pushes an entry for every process of the table
      that has a Unicode executable path. */
  method GetProcessesInfo(system: seq<SystemProcess>) returns (r: Outcome<seq<ProcessInfo>>)
    ensures r == Ok(Candidates(system))
  {
    var processes: seq<ProcessInfo> := [];
    var i := 0;
    while i < |system|
      invariant i <= |system|
      invariant processes + Candidates(system[i..]) == Candidates(system)
    {
      assert system[i..][0] == system[i] && system[i..][1..] == system[i + 1..];
      if system[i].exe.ExePath? {
        assert processes + Candidates(system[i..]) ==
               (processes + [ProcessInfo(system[i].pid, system[i].exe.path)]) + Candidates(system[i + 1..]);
        processes := processes + [ProcessInfo(system[i].pid, system[i].exe.path)];
      }
      i := i + 1;
    }
    assert system[i..] == [];
    assert processes + [] == processes;
    return Ok(processes);
  }

  /** The process the search of one attempt selects: the first whose path
      equals the normalised target. */
  function FindProcess(processes: seq<ProcessInfo>, gamePath: string): (r: Option<ProcessInfo>)
    ensures r.Some? ==> r.value in processes && r.value.path == gamePath
  {
    if processes == [] then None
    else if processes[0].path == gamePath then Some(processes[0])
    else FindProcess(processes[1..], gamePath)
  }

  /** The search finds nothing exactly when no process has the path, and
      otherwise the first one that has it. */
  lemma {:induction false} FindProcessIsFirstMatch(processes: seq<ProcessInfo>, gamePath: string)
    ensures FindProcess(processes, gamePath).None? <==> forall i :: 0 <= i < |processes| ==> processes[i].path != gamePath
    ensures FindProcess(processes, gamePath).Some? ==>
              exists i :: 0 <= i < |processes| && processes[i] == FindProcess(processes, gamePath).value &&
                forall j :: 0 <= j < i ==> processes[j].path != gamePath
    decreases |processes|
  {
    if processes != [] && processes[0].path != gamePath {
      FindProcessIsFirstMatch(processes[1..], gamePath);
      assert forall i :: 1 <= i < |processes| ==> processes[i] == processes[1..][i - 1];
      if FindProcess(processes, gamePath).Some? {
        var i :| 0 <= i < |processes[1..]| && processes[1..][i] == FindProcess(processes, gamePath).value &&
                 forall j :: 0 <= j < i ==> processes[1..][j].path != gamePath;
        assert processes[i + 1] == FindProcess(processes, gamePath).value;
        assert forall j :: 1 <= j < i + 1 ==> processes[j] == processes[1..][j - 1];
      }
    }
  }

  // ---------------------------------------------------------------------------
  // enum_windows_proc and get_hwnd_by_pid

  /** One top-level window, in the order `EnumWindows` reports it. */
  datatype Window = Window(hwnd: nat, ownerPid: nat, visible: bool)

  predicate OwnedVisible(w: Window, pid: nat) { w.ownerPid == pid && w.visible }

  /** The window `get_hwnd_by_pid` finds: the first visible window the process
      owns. */
  function FirstVisibleWindow(windows: seq<Window>, pid: nat): (r: Option<nat>)
    ensures r.Some? ==> exists w :: w in windows && OwnedVisible(w, pid) && w.hwnd == r.value
  {
    if windows == [] then None
    else if OwnedVisible(windows[0], pid) then Some(windows[0].hwnd)
    else
      var r := FirstVisibleWindow(windows[1..], pid);
      assert forall w :: w in windows[1..] ==> w in windows;
      r
  }

  /** The enumeration finds nothing exactly when the process owns no visible
      window, and otherwise the first such window. */
  lemma {:induction false} FirstVisibleWindowIsFirstMatch(windows: seq<Window>, pid: nat)
    ensures FirstVisibleWindow(windows, pid).None? <==> forall i :: 0 <= i < |windows| ==> !OwnedVisible(windows[i], pid)
    ensures FirstVisibleWindow(windows, pid).Some? ==>
              exists i :: 0 <= i < |windows| && OwnedVisible(windows[i], pid) &&
                windows[i].hwnd == FirstVisibleWindow(windows, pid).value &&
                forall j :: 0 <= j < i ==> !OwnedVisible(windows[j], pid)
    decreases |windows|
  {
    if windows != [] && !OwnedVisible(windows[0], pid) {
      FirstVisibleWindowIsFirstMatch(windows[1..], pid);
      assert forall i :: 1 <= i < |windows| ==> windows[i] == windows[1..][i - 1];
      if FirstVisibleWindow(windows, pid).Some? {
        var i :| 0 <= i < |windows[1..]| && OwnedVisible(windows[1..][i], pid) &&
                 windows[1..][i].hwnd == FirstVisibleWindow(windows, pid).value &&
                 forall j :: 0 <= j < i ==> !OwnedVisible(windows[1..][j], pid);
        assert windows[i + 1] == windows[1..][i];
        assert forall j :: 1 <= j < i + 1 ==> windows[j] == windows[1..][j - 1];
      }
    }
  }

  /** The `EnumData` handed to the enumeration callback. */
  class EnumData {
    const targetPid: nat
    var hwnd: Option<nat>

    constructor(pid: nat)
      ensures targetPid == pid && hwnd == None
    {
      targetPid := pid;
      hwnd := None;
    }

    /** `enum_windows_proc`: records a visible window of the target process
        and stops the enumeration there; any other window lets it go on. */
    method EnumWindowsProc(w: Window) returns (keepGoing: bool)
      modifies this
      ensures keepGoing <==> !OwnedVisible(w, targetPid)
      ensures hwnd == if keepGoing then old(hwnd) else Some(w.hwnd)
    {
      if w.ownerPid == targetPid && w.visible {
        hwnd := Some(w.hwnd);
        return false;
      }
      return true;
    }
  }

  /** `get_hwnd_by_pid`: `EnumWindows` calls the callback on each window
      until it asks to stop. */
  method GetHwndByPid(windows: seq<Window>, pid: nat) returns (r: Option<nat>)
    ensures r == FirstVisibleWindow(windows, pid)
  {
    var data := new EnumData(pid);
    var k := 0;
    while k < |windows|
      invariant k <= |windows|
      invariant data.targetPid == pid && data.hwnd == None
      invariant FirstVisibleWindow(windows, pid) == FirstVisibleWindow(windows[k..], pid)
    {
      assert windows[k..][0] == windows[k] && windows[k..][1..] == windows[k + 1..];
      var more := data.EnumWindowsProc(windows[k]);
      if !more {
        break;
      }
      k := k + 1;
    }
    r := data.hwnd;
  }

  // ---------------------------------------------------------------------------
  // get_handler

  /** The first answer a retry loop of `get_handler` gets, from retry i on,
      where attempt(k) is what retry k finds. */
  function FirstOfRetries<T>(attempt: nat -> Option<T>, i: nat): (r: Option<T>)
    decreases HANDLER_RETRIES - i
  {
    if i >= HANDLER_RETRIES then None
    else if attempt(i).Some? then attempt(i)
    else FirstOfRetries(attempt, i + 1)
  }

  /** A retry loop finds nothing exactly when none of its first
      HANDLER_RETRIES attempts finds anything. */
  lemma {:induction false} FirstOfRetriesNone<T>(attempt: nat -> Option<T>, i: nat)
    ensures FirstOfRetries(attempt, i).None? <==> forall k :: i <= k < HANDLER_RETRIES ==> attempt(k).None?
    decreases HANDLER_RETRIES - i
  {
    if i < HANDLER_RETRIES {
      FirstOfRetriesNone(attempt, i + 1);
    }
  }

  /** What a retry loop finds is what one of its first HANDLER_RETRIES
      attempts found, after attempts that found nothing. */
  lemma {:induction false} FirstOfRetriesFound<T>(attempt: nat -> Option<T>, i: nat)
    requires FirstOfRetries(attempt, i).Some?
    ensures exists k :: i <= k < HANDLER_RETRIES && attempt(k) == FirstOfRetries(attempt, i) &&
              forall j :: i <= j < k ==> attempt(j).None?
    decreases HANDLER_RETRIES - i
  {
    if attempt(i).None? {
      FirstOfRetriesFound(attempt, i + 1);
    }
  }

  /** A retry loop makes at most HANDLER_RETRIES attempts: loops whose first
      attempts agree find the same. */
  lemma {:induction false} FirstOfRetriesAgree<T>(a: nat -> Option<T>, b: nat -> Option<T>, i: nat)
    requires forall k :: i <= k < HANDLER_RETRIES ==> a(k) == b(k)
    ensures FirstOfRetries(a, i) == FirstOfRetries(b, i)
    decreases HANDLER_RETRIES - i
  {
    if i < HANDLER_RETRIES {
      FirstOfRetriesAgree(a, b, i + 1);
    }
  }

  /** Retry k of the first loop: the search of the process table at retry k. */
  function ProcessSearch(systems: nat -> seq<SystemProcess>, gamePath: string): nat -> Option<ProcessInfo>
  {
    (k: nat) => FindProcess(Candidates(systems(k)), gamePath)
  }

  /** Retry k of the second loop: the enumeration of the windows at retry k. */
  function WindowSearch(windows: nat -> seq<Window>, pid: nat): nat -> Option<nat>
  {
    (k: nat) => FirstVisibleWindow(windows(k), pid)
  }

  /** The outcome of `get_handler`: the window handle and the pid of the
      process found. */
  function Handler(targetPath: string, systems: nat -> seq<SystemProcess>, windows: nat -> seq<Window>): Outcome<(nat, nat)>
  {
    match FirstOfRetries(ProcessSearch(systems, CollapseBackslashPairs(targetPath)), 0)
    case None => Err(IoError(Other, PID_ERROR))
    case Some(p) =>
      match FirstOfRetries(WindowSearch(windows, p.pid), 0)
      case None => Err(IoError(Other, HWND_ERROR))
      case Some(h) => Ok((h, p.pid))
  }

  /** The inner loop of one retry: the first listed process with the path. */
  method SearchProcesses(processes: seq<ProcessInfo>, gamePath: string) returns (found: Option<ProcessInfo>)
    ensures found == FindProcess(processes, gamePath)
  {
    found := None;
    var k := 0;
    while k < |processes|
      invariant k <= |processes|
      invariant FindProcess(processes, gamePath) == FindProcess(processes[k..], gamePath)
    {
      assert processes[k..][0] == processes[k] && processes[k..][1..] == processes[k + 1..];
      if processes[k].path == gamePath {
        found := Some(processes[k]);
        return;
      }
      k := k + 1;
    }
  }

  /** The first loop of `get_handler`: up to HANDLER_RETRIES searches of the
      process table for the normalised path. */
  method FindProcessRetrying(systems: nat -> seq<SystemProcess>, gamePath: string) returns (found: Option<ProcessInfo>)
    ensures found == FirstOfRetries(ProcessSearch(systems, gamePath), 0)
  {
    found := None;
    ghost var search := ProcessSearch(systems, gamePath);
    var i := 0;
    while i < HANDLER_RETRIES
      invariant i <= HANDLER_RETRIES
      invariant found.None?
      invariant FirstOfRetries(search, 0) == FirstOfRetries(search, i)
    {
      var processes := GetProcessesInfo(systems(i));
      if processes.Ok? {
        found := SearchProcesses(processes.value, gamePath);
        assert found == search(i);
        if found.Some? {
          return;
        }
      }
      i := i + 1;
    }
  }

  /** The second loop of `get_handler`: up to HANDLER_RETRIES enumerations of
      the windows for a visible window of the process. */
  method FindWindowRetrying(windows: nat -> seq<Window>, pid: nat) returns (hwnd: Option<nat>)
    ensures hwnd == FirstOfRetries(WindowSearch(windows, pid), 0)
  {
    ghost var search := WindowSearch(windows, pid);
    var j := 0;
    while j < HANDLER_RETRIES
      invariant j <= HANDLER_RETRIES
      invariant FirstOfRetries(search, 0) == FirstOfRetries(search, j)
    {
      hwnd := GetHwndByPid(windows(j), pid);
      assert hwnd == search(j);
      if hwnd.Some? {
        return;
      }
      j := j + 1;
    }
    hwnd := None;
  }

  /** `get_handler`: the process with the normalised path, then a visible
      window of it, each searched for up to HANDLER_RETRIES times. */
  method GetHandler(targetPath: string, systems: nat -> seq<SystemProcess>, windows: nat -> seq<Window>)
    returns (r: Outcome<(nat, nat)>)
    ensures r == Handler(targetPath, systems, windows)
  {
    var gamePath := CollapseBackslashPairs(targetPath);
    var found := FindProcessRetrying(systems, gamePath);
    if found.None? {
      return Err(IoError(Other, PID_ERROR));
    }
    var process := found.value;
    var hwnd := FindWindowRetrying(windows, process.pid);
    if hwnd.None? {
      return Err(IoError(Other, HWND_ERROR));
    }
    return Ok((hwnd.value, process.pid));
  }

  /** `get_handler` fails with the PID error exactly when no retry lists a
      process with the normalised path. */
  lemma HandlerFailsWithoutProcess(targetPath: string, systems: nat -> seq<SystemProcess>, windows: nat -> seq<Window>)
    ensures Handler(targetPath, systems, windows) == Err(IoError(Other, PID_ERROR))
            <==> forall k :: 0 <= k < HANDLER_RETRIES ==>
                   FindProcess(Candidates(systems(k)), CollapseBackslashPairs(targetPath)).None?
  {
    var search := ProcessSearch(systems, CollapseBackslashPairs(targetPath));
    FirstOfRetriesNone(search, 0);
    assert forall k :: 0 <= k < HANDLER_RETRIES ==>
             search(k) == FindProcess(Candidates(systems(k)), CollapseBackslashPairs(targetPath));
  }

  /** When `get_handler` succeeds, the pid it returns is that of a listed
      process with the normalised path, and the handle is that of a visible
      window of that process. */
  lemma HandlerFindsWindowOfProcess(targetPath: string, systems: nat -> seq<SystemProcess>, windows: nat -> seq<Window>)
    requires Handler(targetPath, systems, windows).Ok?
    ensures exists k, p :: 0 <= k < HANDLER_RETRIES && p in Candidates(systems(k)) &&
              p.pid == Handler(targetPath, systems, windows).value.1 && p.path == CollapseBackslashPairs(targetPath)
    ensures exists k, w :: 0 <= k < HANDLER_RETRIES && w in windows(k) &&
              OwnedVisible(w, Handler(targetPath, systems, windows).value.1) &&
              w.hwnd == Handler(targetPath, systems, windows).value.0
  {
    var search := ProcessSearch(systems, CollapseBackslashPairs(targetPath));
    var found := FirstOfRetries(search, 0);
    FirstOfRetriesFound(search, 0);
    var k :| 0 <= k < HANDLER_RETRIES && search(k) == found && forall j :: 0 <= j < k ==> search(j).None?;
    assert found.value in Candidates(systems(k));
    var windowSearch := WindowSearch(windows, found.value.pid);
    FirstOfRetriesFound(windowSearch, 0);
    var n :| 0 <= n < HANDLER_RETRIES && windowSearch(n) == FirstOfRetries(windowSearch, 0) &&
             forall j :: 0 <= j < n ==> windowSearch(j).None?;
    assert FirstVisibleWindow(windows(n), found.value.pid) == FirstOfRetries(windowSearch, 0);
  }

  /** Only the first HANDLER_RETRIES process tables and window lists count. */
  lemma HandlerUsesOnlyFirstRetries(targetPath: string,
      systems: nat -> seq<SystemProcess>, systems': nat -> seq<SystemProcess>,
      windows: nat -> seq<Window>, windows': nat -> seq<Window>)
    requires forall k :: 0 <= k < HANDLER_RETRIES ==> systems(k) == systems'(k) && windows(k) == windows'(k)
    ensures Handler(targetPath, systems, windows) == Handler(targetPath, systems', windows')
  {
    var gamePath := CollapseBackslashPairs(targetPath);
    FirstOfRetriesAgree(ProcessSearch(systems, gamePath), ProcessSearch(systems', gamePath), 0);
    var found := FirstOfRetries(ProcessSearch(systems, gamePath), 0);
    if found.Some? {
      FirstOfRetriesAgree(WindowSearch(windows, found.value.pid), WindowSearch(windows', found.value.pid), 0);
    }
  }
}
