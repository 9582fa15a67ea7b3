/** `execvpe` of src/modules/proc.rs. */
module ExecSearch {
  // The search for the command through several lists of directories.

  import opened Common

  // ----- Lists of directories -----

  /** The pieces of `s` between colons; always at least one. */
  function Split(s: string): (pieces: seq<string>)
    ensures |pieces| > 0
  {
    if s == "" then [""]
    else
      var rest := Split(s[1..]);
      if s[0] == ':' then [""] + rest else [[s[0]] + rest[0]] + rest[1..]
  }

  function Glue(pieces: seq<string>): string
    requires |pieces| > 0
  {
    if |pieces| == 1 then pieces[0] else pieces[0] + ":" + Glue(pieces[1..])
  }

  lemma {:induction false} GlueUndoesSplit(s: string)
    ensures Glue(Split(s)) == s
    ensures forall piece | piece in Split(s) :: ':' !in piece
  {
    if s != "" {
      GlueUndoesSplit(s[1..]);
      var rest := Split(s[1..]);
      if s[0] == ':' {
        assert Split(s)[1..] == rest;
      } else {
        assert Split(s)[1..] == rest[1..];
        assert rest[0] in rest;
      }
    }
  }

  lemma {:induction false} SplitUndoesGlue(pieces: seq<string>)
    requires |pieces| > 0 && forall piece | piece in pieces :: ':' !in piece
    ensures Split(Glue(pieces)) == pieces
    decreases |pieces|, |pieces[0]|
  {
    var s := Glue(pieces);
    if pieces[0] == "" {
      if |pieces| > 1 {
        SplitUndoesGlue(pieces[1..]);
        assert s[1..] == Glue(pieces[1..]);
      }
    } else {
      var shorter := pieces[0 := pieces[0][1..]];
      assert shorter[1..] == pieces[1..];
      assert forall piece | piece in shorter :: piece == shorter[0] || piece in pieces;
      assert pieces[0] in pieces;
      SplitUndoesGlue(shorter);
      assert s[0] == pieces[0][0] && s[0] in pieces[0];
      assert s[1..] == Glue(shorter);
      assert pieces[0] == [s[0]] + shorter[0];
      assert pieces == [pieces[0]] + shorter[1..];
    }
  }

  /** `Path::join` of a non-empty directory and a name without a slash. */
  function Join(directory: string, command: string): string
    requires directory != ""
  {
    if directory[|directory| - 1] == '/' then directory + command else directory + "/" + command
  }

  const PATH_PREFIX := "PATH="

  /** The caller's PATH, then each PATH of the new environment; undecodable entries are passed over. */
  function Paths(caller: Option<string>, envp: seq<Option<string>>): seq<string> {
    (if caller.Some? then [caller.value] else []) + Supplied(envp)
  }

  function Supplied(envp: seq<Option<string>>): seq<string> {
    if envp == [] then []
    else (if envp[0].Some? && PATH_PREFIX <= envp[0].value then [envp[0].value[|PATH_PREFIX|..]] else []) + Supplied(envp[1..])
  }

  function InDirectories(directories: seq<string>, command: string): seq<string> {
    if directories == [] then []
    else (if directories[0] == "" then [] else [Join(directories[0], command)]) + InDirectories(directories[1..], command)
  }

  /** Every candidate in order: the flat list that the nested loops walk. */
  function Candidates(paths: seq<string>, command: string): seq<string> {
    if paths == [] then []
    else InDirectories(Split(paths[0]), command) + Candidates(paths[1..], command)
  }

  // ----- What a search is -----

  datatype Exec = Success | Fails(error: Errno)

  datatype SearchError = NotText | HasNul | Os(error: Errno)

  datatype Outcome = Replaced(program: string) | Failed(error: SearchError)

  /** What execve answers to the n-th attempt. */
  type Kernel = (nat, string) -> Exec

  /** The failures after which the search goes on. */
  predicate Soft(e: Exec) {
    e.Fails? && (e.error == ENOENT || e.error == ENOTDIR || e.error == EACCES)
  }

  predicate AllSoft(tries: seq<string>, exec: Kernel) {
    forall i | 0 <= i < |tries| :: '\0' !in tries[i] && Soft(exec(i, tries[i]))
  }

  predicate SomeDenied(tries: seq<string>, exec: Kernel) {
    exists i | 0 <= i < |tries| :: exec(i, tries[i]) == Fails(EACCES)
  }

  /** A flat search that made `n` attempts: all but the last fail softly, and the last one or the end decides. */
  predicate Searched(candidates: seq<string>, exec: Kernel, n: nat, outcome: Outcome) {
    && n <= |candidates|
    && if n > 0 && '\0' !in candidates[n - 1] && !Soft(exec(n - 1, candidates[n - 1])) then
        && AllSoft(candidates[..n - 1], exec)
        && outcome == Decisive(candidates[n - 1], exec(n - 1, candidates[n - 1]))
      else
        && AllSoft(candidates[..n], exec)
        && if n < |candidates| then '\0' in candidates[n] && outcome == Failed(HasNul)
           else outcome == Failed(Os(if SomeDenied(candidates, exec) then EACCES else ENOENT))
  }

  function Decisive(candidate: string, e: Exec): Outcome {
    match e
    case Success => Replaced(candidate)
    case Fails(error) => Failed(Os(error))
  }

  /** Only one search fits: the number of attempts and the outcome are determined. */
  lemma SearchIsDetermined(candidates: seq<string>, exec: Kernel, m: nat, a: Outcome, n: nat, b: Outcome)
    requires Searched(candidates, exec, m, a) && Searched(candidates, exec, n, b)
    ensures m == n && a == b
  {
  }

  // ----- The nested loops -----

  /** Half way: `tries` failed softly and `rest` is what is left of the flat list. */
  predicate Walking(all: seq<string>, tries: seq<string>, rest: seq<string>, exec: Kernel, denied: bool) {
    all == tries + rest && AllSoft(tries, exec) && denied == SomeDenied(tries, exec)
  }

  lemma SoftStep(all: seq<string>, tries: seq<string>, candidate: string, rest: seq<string>, exec: Kernel, denied: bool)
    requires Walking(all, tries, [candidate] + rest, exec, denied)
    requires '\0' !in candidate && Soft(exec(|tries|, candidate))
    ensures Walking(all, tries + [candidate], rest, exec, denied || exec(|tries|, candidate) == Fails(EACCES))
  {
    var next := tries + [candidate];
    assert all == next + rest;
    assert forall i | 0 <= i < |tries| :: next[i] == tries[i];
    assert next[|tries|] == candidate;
  }

  lemma HardStop(all: seq<string>, tries: seq<string>, candidate: string, rest: seq<string>, exec: Kernel, denied: bool)
    requires Walking(all, tries, [candidate] + rest, exec, denied)
    requires '\0' !in candidate && !Soft(exec(|tries|, candidate))
    ensures tries + [candidate] <= all
    ensures Searched(all, exec, |tries| + 1, Decisive(candidate, exec(|tries|, candidate)))
  {
    assert all == (tries + [candidate]) + rest;
    assert all[..|tries|] == tries && all[|tries|] == candidate;
  }

  lemma NulStop(all: seq<string>, tries: seq<string>, candidate: string, rest: seq<string>, exec: Kernel, denied: bool)
    requires Walking(all, tries, [candidate] + rest, exec, denied) && '\0' in candidate
    ensures tries <= all && Searched(all, exec, |tries|, Failed(HasNul))
  {
    assert all[..|tries|] == tries && all[|tries|] == candidate;
  }

  lemma Exhausted(all: seq<string>, tries: seq<string>, exec: Kernel, denied: bool)
    requires Walking(all, tries, [], exec, denied)
    ensures tries == all && Searched(all, exec, |tries|, Failed(Os(if denied then EACCES else ENOENT)))
  {
    assert all[..|tries|] == tries == all;
  }

  lemma NextPath(paths: seq<string>, p: nat, command: string)
    requires p < |paths|
    ensures Candidates(paths[p..], command) == InDirectories(Split(paths[p]), command) + Candidates(paths[p + 1..], command)
  {
    assert paths[p..][1..] == paths[p + 1..];
  }

  lemma NextDirectory(directories: seq<string>, d: nat, command: string, later: seq<string>)
    requires d < |directories|
    ensures var rest := InDirectories(directories[d + 1..], command) + later;
            InDirectories(directories[d..], command) + later
            == if directories[d] == "" then rest else [Join(directories[d], command)] + rest
  {
    assert directories[d..][1..] == directories[d + 1..];
  }

  /** `cmd` is absent when it does not decode as text; a C string holds no NUL. */
  method Execvpe(cmd: Option<string>, caller: Option<string>, envp: seq<Option<string>>, exec: Kernel)
    returns (tries: seq<string>, outcome: Outcome)
    ensures cmd.None? ==> tries == [] && outcome == Failed(NotText)
    ensures cmd.Some? && '/' in cmd.value ==>
              && tries == [cmd.value]
              && outcome == match exec(0, cmd.value) { case Success => Replaced(cmd.value) case Fails(e) => Failed(Os(e)) }
    ensures cmd.Some? && '/' !in cmd.value ==> tries <= Candidates(Paths(caller, envp), cmd.value)
    ensures cmd.Some? && '/' !in cmd.value ==> Searched(Candidates(Paths(caller, envp), cmd.value), exec, |tries|, outcome)
  {
    if cmd.None? {
      return [], Failed(NotText);
    }
    var command := cmd.value;
    if '/' in command {
      return [command], Decisive(command, exec(0, command));
    }
    tries, outcome := Walk(Paths(caller, envp), command, exec);
  }

  /** The outer loop, over the lists of directories. */
  method Walk(paths: seq<string>, command: string, exec: Kernel) returns (tries: seq<string>, outcome: Outcome)
    ensures tries <= Candidates(paths, command)
    ensures Searched(Candidates(paths, command), exec, |tries|, outcome)
  {
    ghost var all := Candidates(paths, command);
    tries := [];
    var permissionDenied := false;
    assert paths[0..] == paths;
    for p := 0 to |paths|
      invariant Walking(all, tries, Candidates(paths[p..], command), exec, permissionDenied)
    {
      NextPath(paths, p, command);
      var end;
      tries, permissionDenied, end := WalkPath(
        Split(paths[p]), command, exec, tries, permissionDenied, all, Candidates(paths[p + 1..], command));
      if end.Some? {
        return tries, end.value;
      }
    }
    Exhausted(all, tries, exec, permissionDenied);
    outcome := Failed(Os(if permissionDenied then EACCES else ENOENT));
  }

  /** One candidate: it ends the search, or its soft failure is remembered. */
  method Attempt(candidate: string, exec: Kernel, before: seq<string>, denied: bool,
                 ghost all: seq<string>, ghost rest: seq<string>)
    returns (tries: seq<string>, permissionDenied: bool, end: Option<Outcome>)
    requires Walking(all, before, [candidate] + rest, exec, denied)
    ensures end.None? ==> Walking(all, tries, rest, exec, permissionDenied)
    ensures end.Some? ==> tries <= all
    ensures end.Some? ==> Searched(all, exec, |tries|, end.value)
  {
    if '\0' in candidate {
      NulStop(all, before, candidate, rest, exec, denied);
      return before, denied, Some(Failed(HasNul));
    }
    tries := before + [candidate];
    match exec(|before|, candidate) {
      case Fails(ENOENT) | Fails(ENOTDIR) =>
        SoftStep(all, before, candidate, rest, exec, denied);
        return tries, denied, None;
      case Fails(EACCES) =>
        SoftStep(all, before, candidate, rest, exec, denied);
        return tries, true, None;
      case decisive =>
        HardStop(all, before, candidate, rest, exec, denied);
        return tries, denied, Some(Decisive(candidate, decisive));
    }
  }

  /** The inner loop, over the directories of one list; an `end` leaves both loops. */
  method WalkPath(directories: seq<string>, command: string, exec: Kernel, before: seq<string>, denied: bool,
                  ghost all: seq<string>, ghost later: seq<string>)
    returns (tries: seq<string>, permissionDenied: bool, end: Option<Outcome>)
    requires Walking(all, before, InDirectories(directories, command) + later, exec, denied)
    ensures end.None? ==> Walking(all, tries, later, exec, permissionDenied)
    ensures end.Some? ==> tries <= all
    ensures end.Some? ==> Searched(all, exec, |tries|, end.value)
  {
    tries, permissionDenied, end := before, denied, None;
    assert directories[0..] == directories;
    for d := 0 to |directories|
      invariant end.None?
      invariant Walking(all, tries, InDirectories(directories[d..], command) + later, exec, permissionDenied)
    {
      NextDirectory(directories, d, command, later);
      if directories[d] == "" {
        continue;
      }
      tries, permissionDenied, end := Attempt(
        Join(directories[d], command), exec, tries, permissionDenied, all,
        InDirectories(directories[d + 1..], command) + later);
      if end.Some? {
        return;
      }
    }
    assert InDirectories(directories[|directories|..], command) + later == later;
  }

  // ----- What the search does with empty entries -----

  /** Section 8.3 of POSIX.1-2017 XBD: an empty prefix of PATH stands for the current directory. */
  function PosixCandidates(directories: seq<string>, command: string): seq<string> {
    if directories == [] then []
    else [Join(if directories[0] == "" then "." else directories[0], command)] + PosixCandidates(directories[1..], command)
  }

  /** The two lists agree exactly when no entry is empty. */
  lemma {:induction false} EmptyEntriesAreSkipped(directories: seq<string>, command: string)
    ensures |InDirectories(directories, command)| <= |PosixCandidates(directories, command)| == |directories|
    ensures InDirectories(directories, command) == PosixCandidates(directories, command) <==> "" !in directories
  {
    if directories != [] {
      EmptyEntriesAreSkipped(directories[1..], command);
      assert "" in directories <==> directories[0] == "" || "" in directories[1..];
      assert PosixCandidates(directories, command)[1..] == PosixCandidates(directories[1..], command);
      assert directories[0] != "" ==>
          InDirectories(directories, command)[1..] == InDirectories(directories[1..], command);
    }
  }

  // ----- The candidates and the outcome, spelled out -----

  /** The caller's PATH comes first, then what follows `PATH=` in each entry of the new
      environment that starts so. */
  lemma PathsSpelledOut(p: string, x: string, e: Option<string>, envp: seq<Option<string>>)
    ensures Paths(None, []) == []
    ensures Paths(Some(p), envp) == [p] + Paths(None, envp)
    ensures Paths(None, [Some("PATH=" + x)] + envp) == [x] + Paths(None, envp)
    ensures e == None || !("PATH=" <= e.value) ==> Paths(None, [e] + envp) == Paths(None, envp)
  {
    var entry := "PATH=" + x;
    assert entry[|PATH_PREFIX|..] == x && PATH_PREFIX <= entry;
    assert ([Some(entry)] + envp)[1..] == envp && ([e] + envp)[1..] == envp;
  }

  /** The candidates of a list of directories: each with a slash, which is not doubled,
      and the command; empty ones give none. */
  lemma CandidatesSpelledOut(directories: seq<string>, paths: seq<string>, command: string)
    requires |directories| > 0 && forall d | d in directories :: ':' !in d
    ensures Candidates([], command) == [] == InDirectories([], command)
    ensures Candidates([Glue(directories)] + paths, command)
         == InDirectories(directories, command) + Candidates(paths, command)
    ensures InDirectories([""] + directories, command) == InDirectories(directories, command)
    ensures InDirectories(directories, command)
         == InDirectories(directories[..1], command) + InDirectories(directories[1..], command)
    ensures var d := directories[0];
            d != "" ==> InDirectories([d], command) == [if d[|d| - 1] == '/' then d + command else d + "/" + command]
  {
    SplitUndoesGlue(directories);
    assert ([Glue(directories)] + paths)[1..] == paths;
    assert ([""] + directories)[1..] == directories;
    assert directories[..1] == [directories[0]] && [directories[0]][1..] == [];
  }

  /** What a search says: every attempt but the last failed with ENOENT, ENOTDIR or
      EACCES. It ends with the first success, with the first other error, before the
      first candidate that holds a NUL, or, exhausted, with EACCES if some attempt
      had it and else with ENOENT. */
  lemma OutcomeSpelledOut(candidates: seq<string>, exec: Kernel, n: nat, outcome: Outcome)
    requires Searched(candidates, exec, n, outcome)
    ensures n <= |candidates|
    ensures forall i | 0 <= i < n - 1 ::
              exec(i, candidates[i]) in {Fails(ENOENT), Fails(ENOTDIR), Fails(EACCES)}
    ensures match outcome
            case Replaced(program) => n > 0 && program == candidates[n - 1] && exec(n - 1, program) == Success
            case Failed(NotText) => false
            case Failed(HasNul) => n < |candidates| && '\0' in candidates[n]
            case Failed(Os(e)) =>
              || (n > 0 && exec(n - 1, candidates[n - 1]) == Fails(e) && e !in {ENOENT, ENOTDIR, EACCES})
              || (&& n == |candidates|
                  && (n > 0 ==> exec(n - 1, candidates[n - 1]) in {Fails(ENOENT), Fails(ENOTDIR), Fails(EACCES)})
                  && e == if exists i :: 0 <= i < n && exec(i, candidates[i]) == Fails(EACCES) then EACCES else ENOENT)
  {
    if n > 0 && '\0' !in candidates[n - 1] && !Soft(exec(n - 1, candidates[n - 1])) {
      assert forall i | 0 <= i < n - 1 :: candidates[..n - 1][i] == candidates[i];
    } else {
      assert forall i | 0 <= i < n :: candidates[..n][i] == candidates[i];
    }
  }
}
