/** The life cycle of `PamHandle` in src/ffi/pam.rs, and the fork in `auth`. */
module PamSession {
  // libpam is a log of the calls it received; its return codes come from a script and
  // may be anything. The fork is that of src/modules/auth.rs.

  import opened Common
  import opened Endpoint
  import opened ForkSync
  import Host
  import Kernel
  import Supervisor

  const PAM_SUCCESS := 0
  const PAM_NEW_AUTHTOK_REQD := 12

  datatype Op =
    | EstablishCred | DeleteCred | OpenSession | CloseSession | End(status: int)
    | Authenticate | AcctMgmt | Chauthtok | SetItem(item: Item, value: string)

  datatype Item = Tty | RUser | User

  datatype Call = Call(op: Op, code: int)

  // ----- The protocol libpam expects -----

  /** Whether credentials were established and not deleted since, a session was
      opened and not closed since, closing it failed, and pam_end was called. */
  datatype Ledger = Ledger(creds: bool, open: bool, closeFailed: bool, ended: bool)

  predicate Allowed(l: Ledger, c: Call) {
    && !l.ended
    && match c.op {
         case EstablishCred => !l.creds
         case OpenSession => l.creds && !l.open
         case CloseSession => l.open
         case End(_) => !l.creds && (l.open ==> l.closeFailed)
         case _ => true
       }
  }

  function Book(l: Ledger, c: Call): Ledger {
    var ok := c.code == PAM_SUCCESS;
    match c.op
    case EstablishCred => l.(creds := ok)
    case DeleteCred => l.(creds := false)
    case OpenSession => l.(open := ok, closeFailed := false)
    case CloseSession => l.(open := !ok, closeFailed := !ok)
    case End(_) => l.(ended := true)
    case _ => l
  }

  /** The ledger after the calls, if each was allowed when it was made. */
  function Track(calls: seq<Call>): Option<Ledger> {
    if calls == [] then Some(Ledger(false, false, false, false))
    else
      match Track(calls[..|calls| - 1])
      case None => None
      case Some(l) =>
        var c := calls[|calls| - 1];
        if Allowed(l, c) then Some(Book(l, c)) else None
  }

  lemma {:induction false} TrackPrefix(calls: seq<Call>, n: nat)
    requires Track(calls).Some? && n <= |calls|
    ensures Track(calls[..n]).Some?
    decreases |calls| - n
  {
    if n < |calls| {
      TrackPrefix(calls, n + 1);
      assert calls[..n + 1][..n] == calls[..n];
    } else {
      assert calls[..n] == calls;
    }
  }

  lemma {:induction false} CredsUntilDeleted(calls: seq<Call>, i: nat, n: nat)
    requires i < n <= |calls| && Track(calls[..n]).Some?
    requires calls[i] == Call(EstablishCred, PAM_SUCCESS)
    requires forall j | i < j < n :: calls[j].op != DeleteCred
    ensures Track(calls[..n]).value.creds
  {
    assert calls[..n][..n - 1] == calls[..n - 1];
    if i + 1 < n {
      CredsUntilDeleted(calls, i, n - 1);
    }
  }

  lemma {:induction false} EndedOnlyByEnd(calls: seq<Call>)
    requires Track(calls).Some?
    ensures Track(calls).value.ended <==> calls != [] && calls[|calls| - 1].op.End?
    ensures forall i | 0 <= i < |calls| - 1 :: !calls[i].op.End?
  {
    if calls != [] {
      var init := calls[..|calls| - 1];
      EndedOnlyByEnd(init);
      assert forall i | 0 <= i < |init| :: calls[i] == init[i];
    }
  }

  lemma {:induction false} OpenUntilClosed(calls: seq<Call>, i: nat, n: nat)
    requires i < n <= |calls| && Track(calls[..n]).Some?
    requires calls[i] == Call(OpenSession, PAM_SUCCESS)
    requires forall j | i < j < n :: calls[j].op != CloseSession
    ensures Track(calls[..n]).value.open && !Track(calls[..n]).value.closeFailed
  {
    assert calls[..n][..n - 1] == calls[..n - 1];
    if i + 1 < n {
      OpenUntilClosed(calls, i, n - 1);
    }
  }

  lemma {:induction false} OpenWasOpened(calls: seq<Call>, n: nat) returns (i: nat)
    requires n <= |calls| && Track(calls[..n]).Some? && Track(calls[..n]).value.open
    ensures i < n && calls[i] == Call(OpenSession, PAM_SUCCESS)
    ensures forall j | i < j < n :: calls[j] != Call(CloseSession, PAM_SUCCESS)
  {
    assert calls[..n][..n - 1] == calls[..n - 1];
    if calls[n - 1] == Call(OpenSession, PAM_SUCCESS) {
      return n - 1;
    }
    i := OpenWasOpened(calls, n - 1);
  }

  predicate Accepted(calls: seq<Call>) {
    && Track(calls).Some?
    && Track(calls).value.ended
  }

  lemma AllowedAt(calls: seq<Call>, k: nat)
    requires Track(calls).Some? && k < |calls|
    ensures Track(calls[..k]).Some?
    ensures Allowed(Track(calls[..k]).value, calls[k])
  {
    TrackPrefix(calls, k);
    TrackPrefix(calls, k + 1);
    assert calls[..k + 1][..k] == calls[..k];
  }

  /** What an accepted log means for credentials: every successful establishment is
      undone by a deletion before the next establishment and before the end. */
  lemma CredentialsAreDeleted(calls: seq<Call>, i: nat, k: nat)
    requires Track(calls).Some? && i < k < |calls|
    requires calls[i] == Call(EstablishCred, PAM_SUCCESS) && (calls[k].op == EstablishCred || calls[k].op.End?)
    ensures exists j | i < j < k :: calls[j].op == DeleteCred
  {
    AllowedAt(calls, k);
    if forall j | i < j < k :: calls[j].op != DeleteCred {
      CredsUntilDeleted(calls, i, k);
      assert false;
    }
  }

  /** For sessions: whatever was opened is closed, or its closing at least
      attempted, before the end. */
  lemma SessionsAreClosed(calls: seq<Call>, i: nat, k: nat)
    requires Track(calls).Some? && i < k < |calls|
    requires calls[i] == Call(OpenSession, PAM_SUCCESS) && calls[k].op.End?
    ensures exists j | i < j < k :: calls[j].op == CloseSession
  {
    AllowedAt(calls, k);
    if forall j | i < j < k :: calls[j].op != CloseSession {
      OpenUntilClosed(calls, i, k);
      assert false;
    }
  }

  /** Only an open session is closed: it was opened, and not closed since. */
  lemma OnlyOpenIsClosed(calls: seq<Call>, k: nat)
    requires Track(calls).Some? && k < |calls| && calls[k].op == CloseSession
    ensures exists i | 0 <= i < k ::
              && calls[i] == Call(OpenSession, PAM_SUCCESS)
              && forall j | i < j < k :: calls[j] != Call(CloseSession, PAM_SUCCESS)
  {
    AllowedAt(calls, k);
    var i := OpenWasOpened(calls, k);
  }

  /** All of it, and the end is the last call and the only one of its kind. */
  lemma AcceptedLogs(calls: seq<Call>)
    requires Accepted(calls)
    ensures forall i, k | 0 <= i < k < |calls|
              && calls[i] == Call(EstablishCred, PAM_SUCCESS) && (calls[k].op == EstablishCred || calls[k].op.End?) ::
              exists j | i < j < k :: calls[j].op == DeleteCred
    ensures forall i, k | 0 <= i < k < |calls| && calls[i] == Call(OpenSession, PAM_SUCCESS) && calls[k].op.End? ::
              exists j | i < j < k :: calls[j].op == CloseSession
    ensures forall k | 0 <= k < |calls| && calls[k].op == CloseSession ::
              exists i | 0 <= i < k :: calls[i] == Call(OpenSession, PAM_SUCCESS)
    ensures calls != [] && calls[|calls| - 1].op.End?
    ensures forall i | 0 <= i < |calls| - 1 :: !calls[i].op.End?
  {
    EndedOnlyByEnd(calls);
    forall i, k | 0 <= i < k < |calls|
              && calls[i] == Call(EstablishCred, PAM_SUCCESS) && (calls[k].op == EstablishCred || calls[k].op.End?)
      ensures exists j | i < j < k :: calls[j].op == DeleteCred
    {
      CredentialsAreDeleted(calls, i, k);
    }
    forall i, k | 0 <= i < k < |calls| && calls[i] == Call(OpenSession, PAM_SUCCESS) && calls[k].op.End?
      ensures exists j | i < j < k :: calls[j].op == CloseSession
    {
      SessionsAreClosed(calls, i, k);
    }
    forall k | 0 <= k < |calls| && calls[k].op == CloseSession
      ensures exists i | 0 <= i < k :: calls[i] == Call(OpenSession, PAM_SUCCESS)
    {
      OnlyOpenIsClosed(calls, k);
    }
  }

  // ----- pam.rs: PamHandle -----

  /** The next code libpam returns; success when the script is over. */
  function Head(codes: seq<int>): int {
    if codes == [] then PAM_SUCCESS else codes[0]
  }

  function Tail(codes: seq<int>): seq<int> {
    if codes == [] then [] else codes[1..]
  }

  class PamHandle {
    var handle: bool         // the pointer is not null
    var lastStatus: int
    var session: bool
    var codes: seq<int>      // what libpam will return
    var calls: seq<Call>     // what libpam was asked

    /** Between calls, while the handle is live: the session flag is libpam's
        session, no credentials are left without one, and with one they are left
        exactly if its closing has not failed. */
    predicate Valid()
      reads this
    {
      && handle
      && Track(calls).Some?
      && var l := Track(calls).value;
      && !l.ended && l.open == session
      && (l.creds ==> session)
      && (session ==> (l.creds <==> !l.closeFailed))
    }

    /** `pam_start` succeeded. */
    constructor (codes: seq<int>)
      ensures Valid() && !session && calls == [] && this.codes == codes
    {
      handle, lastStatus, session := true, PAM_SUCCESS, false;
      this.codes, calls := codes, [];
    }

    /** The copy of the handle that fork leaves in the child. */
    constructor Forked(parent: PamHandle)
      ensures handle == parent.handle && session == parent.session && calls == parent.calls
      ensures lastStatus == parent.lastStatus && codes == parent.codes
    {
      handle, lastStatus, session := parent.handle, parent.lastStatus, parent.session;
      codes, calls := parent.codes, parent.calls;
    }

    /** libpam will refuse nothing. */
    predicate Willing()
      reads this`codes
    {
      forall i | 0 <= i < |codes| :: codes[i] == PAM_SUCCESS
    }

    method Ask(op: Op) returns (code: int)
      modifies this`codes, this`calls
      ensures old(Willing()) ==> Willing() && code == PAM_SUCCESS
      ensures code == Head(old(codes)) && codes == Tail(old(codes))
      ensures calls == old(calls) + [Call(op, code)]
      ensures Track(calls) == match Track(old(calls)) {
                case None => None
                case Some(l) => if Allowed(l, Call(op, code)) then Some(Book(l, Call(op, code))) else None
              }
    {
      code := Head(codes);
      codes := Tail(codes);
      calls := calls + [Call(op, code)];
      assert calls[..|calls| - 1] == old(calls);
    }

    method Check(code: int) returns (ok: bool)
      modifies this`lastStatus
      ensures lastStatus == code && (ok <==> code == PAM_SUCCESS)
    {
      lastStatus := code;
      ok := code == PAM_SUCCESS;
    }

    /** A call outside the session protocol. */
    method Plain(op: Op) returns (code: int)
      requires Valid() && (op.Authenticate? || op.AcctMgmt? || op.Chauthtok? || op.SetItem?)
      modifies this
      ensures Valid() && session == old(session) && calls == old(calls) + [Call(op, code)]
      ensures old(Willing()) ==> Willing() && code == PAM_SUCCESS
    {
      code := Ask(op);
      lastStatus := code;
    }

    /** A refused open: no credentials, or no session and the credentials taken
        back. */
    static predicate Refused(a: seq<Call>, b: seq<Call>, status: int) {
      || b == a + [Call(EstablishCred, status)]
      || (|b| > 0 && b[|b| - 1].op == DeleteCred
          && b == a + [Call(EstablishCred, PAM_SUCCESS), Call(OpenSession, status), b[|b| - 1]])
    }

    method Open() returns (ok: bool)
      requires Valid()
      modifies this
      ensures Valid() && old(calls) <= calls
      ensures old(session) ==> ok && session && calls == old(calls)
      ensures !old(session) ==> ok == session && (ok ==>
                calls == old(calls) + [Call(EstablishCred, PAM_SUCCESS), Call(OpenSession, PAM_SUCCESS)])
      ensures !ok ==> lastStatus != PAM_SUCCESS && Refused(old(calls), calls, lastStatus)
      ensures old(Willing()) ==> Willing() && ok
      ensures !old(session) && Head(old(codes)) == PAM_SUCCESS && Head(Tail(old(codes))) == PAM_SUCCESS ==>
                ok && codes == Tail(Tail(old(codes)))
    {
      if session {
        return true;
      }
      var code := Ask(EstablishCred);
      ok := Check(code);
      if !ok {
        return;
      }
      ok := Begin();
    }

    /** The second half of it: credentials are there, and are taken back if libpam
        refuses the session. */
    method Begin() returns (ok: bool)
      requires handle && !session && Track(calls).Some?
      requires var l := Track(calls).value; l.creds && !l.open && !l.ended
      modifies this
      ensures Valid() && ok == session
      ensures ok ==> calls == old(calls) + [Call(OpenSession, PAM_SUCCESS)]
      ensures !ok ==>
                && lastStatus != PAM_SUCCESS && |calls| == |old(calls)| + 2
                && calls[|calls| - 1].op == DeleteCred
                && calls == old(calls) + [Call(OpenSession, lastStatus), calls[|calls| - 1]]
      ensures ok <==> Head(old(codes)) == PAM_SUCCESS
      ensures ok ==> codes == Tail(old(codes))
      ensures old(Willing()) ==> Willing() && ok
    {
      var code := Ask(OpenSession);
      ok := Check(code);
      if !ok {
        code := Ask(DeleteCred);
        return;
      }
      session := true;
    }

    method Close() returns (ok: bool)
      requires Valid()
      modifies this
      ensures Valid() && handle
      ensures !old(session) ==> ok && calls == old(calls)
      ensures old(session) ==>
                && |calls| == |old(calls)| + 2 && old(calls) <= calls
                && calls[|calls| - 2].op == CloseSession && calls[|calls| - 1].op == DeleteCred
                && (session <==> calls[|calls| - 2].code != PAM_SUCCESS)
                && lastStatus == calls[if session then |calls| - 2 else |calls| - 1].code
                && (ok <==> lastStatus == PAM_SUCCESS)
      ensures old(session) ==> calls[|calls| - 2].code == Head(old(codes))
      ensures !Track(calls).value.creds
    {
      if !session {
        return true;
      }
      var code := Ask(CloseSession);
      ok := Check(code);
      if !ok {
        code := Ask(DeleteCred);
        return;
      }
      session := false;
      code := Ask(DeleteCred);
      ok := Check(code);
    }

    /** `drop`. */
    method Drop()
      requires handle ==> Valid()
      modifies this
      ensures !handle
      ensures !old(handle) ==> calls == old(calls)
      ensures old(handle) ==> old(calls) < calls && Accepted(calls)
      ensures old(handle) ==> calls[|calls| - 1].op == End(lastStatus)
    {
      if handle {
        if session {
          var ok := Close();
        }
        var code := Ask(End(lastStatus));
        handle := false;
      }
    }
  }

  /** A failed close leaves the session open although the credentials are gone, so
      an open session does not mean that there are credentials: `open_session`
      succeeds, and then libpam refuses to close the session with any code. */
  method FailedClose(refusal: int, codes: seq<int>) returns (h: PamHandle)
    requires refusal != PAM_SUCCESS
    ensures fresh(h) && h.Valid() && h.session
    ensures h.lastStatus == refusal && Track(h.calls) == Some(Ledger(false, true, true, false))
  {
    var script := [PAM_SUCCESS, PAM_SUCCESS, refusal] + codes;
    h := new PamHandle(script);
    assert Tail(script) == [PAM_SUCCESS, refusal] + codes && Tail(Tail(script)) == [refusal] + codes;
    var ok := h.Open();
    ok := h.Close();
  }

  /** Any sequence of opens (true) and closes (false), whatever libpam returns,
      then the drop. */
  method Lifecycle(codes: seq<int>, ops: seq<bool>) returns (calls: seq<Call>)
    ensures Accepted(calls)
  {
    var h := new PamHandle(codes);
    for i := 0 to |ops|
      invariant h.Valid() && fresh(h)
    {
      var ok;
      if ops[i] {
        ok := h.Open();
      } else {
        ok := h.Close();
      }
    }
    h.Drop();
    calls := h.calls;
  }

  // ----- auth.rs: the PAM backend with its own executor -----

  /** What does not come from libpam: whether the barrier's pipes, the environment
      list and the fork succeeded, and in the child the exit signal and the process
      group; what the parent does meanwhile, as the child's half of the barrier sees
      it; and the child, as the parent sees it. */
  datatype Around = Around(sync: bool, envlist: bool, forks: bool, exitSignal: bool, group: bool,
                           peer: seq<Tick>, pid: int, watch: Host.Machine)

  /** Who calls, for whom, and the terminal's name, if standard input is one and it has
      a name. */
  datatype Names = Names(user: string, target: string, tty: Option<string>)

  /** What libpam is asked first: the terminal's name, the caller's authentication
      unless that is disabled, and the caller's name. */
  function Identification(names: Names, disableAuth: bool): seq<Call> {
    [Call(SetItem(Tty, if names.tty.Some? then names.tty.value else "/runas"), 0)]
    + (if disableAuth then [] else [Call(Authenticate, 0)])
    + [Call(SetItem(RUser, names.user), 0)]
  }

  /** And then whether the account is usable, perhaps a change of its expired password,
      and last the target's name. */
  function Admission(names: Names, change: bool): seq<Call> {
    (if change then [Call(AcctMgmt, 12), Call(Chauthtok, 0)] else [Call(AcctMgmt, 0)])
    + [Call(SetItem(User, names.target), 0)]
  }

  /** The record is a preparation that succeeded; a change of the password needs the
      leave to prompt. */
  predicate Prepared(calls: seq<Call>, names: Names, disableAuth: bool, noPrompt: bool) {
    || calls == Identification(names, disableAuth) + Admission(names, false)
    || (!noPrompt && calls == Identification(names, disableAuth) + Admission(names, true))
  }

  method Identify(h: PamHandle, names: Names, disableAuth: bool) returns (ok: bool)
    requires h.Valid() && !h.session && h.calls == []
    modifies h
    ensures h.Valid() && !h.session
    ensures ok ==> h.calls == Identification(names, disableAuth)
    ensures old(h.Willing()) ==> h.Willing() && ok
  {
    var code := h.Plain(SetItem(Tty, if names.tty.Some? then names.tty.value else "/runas"));
    if code != PAM_SUCCESS {
      return false;
    }
    if !disableAuth {
      code := h.Plain(Authenticate);
      if code != PAM_SUCCESS {
        return false;
      }
    }
    code := h.Plain(SetItem(RUser, names.user));
    return code == PAM_SUCCESS;
  }

  method Admit(h: PamHandle, names: Names, noPrompt: bool) returns (ok: bool)
    requires h.Valid() && !h.session
    modifies h
    ensures h.Valid() && !h.session
    ensures ok ==>
              || h.calls == old(h.calls) + Admission(names, false)
              || (!noPrompt && h.calls == old(h.calls) + Admission(names, true))
    ensures old(h.Willing()) ==> h.Willing() && ok
  {
    var code := h.Plain(AcctMgmt);
    if code == PAM_NEW_AUTHTOK_REQD && !noPrompt {
      code := h.Plain(Chauthtok);
    }
    if code != PAM_SUCCESS {
      return false;
    }
    code := h.Plain(SetItem(User, names.target));
    return code == PAM_SUCCESS;
  }

  /** Everything before the session. */
  method Prepare(h: PamHandle, names: Names, disableAuth: bool, noPrompt: bool) returns (ok: bool)
    requires h.Valid() && !h.session && h.calls == []
    modifies h
    ensures h.Valid() && !h.session
    ensures ok ==> Prepared(h.calls, names, disableAuth, noPrompt)
    ensures old(h.Willing()) ==> h.Willing() && ok
  {
    ok := Identify(h, names, disableAuth);
    if ok {
      ok := Admit(h, names, noPrompt);
    }
  }

  /** A preparation, then the credentials and the session. */
  predicate Opened(calls: seq<Call>, names: Names, disableAuth: bool, noPrompt: bool) {
    && |calls| >= 2
    && Prepared(calls[..|calls| - 2], names, disableAuth, noPrompt)
    && calls[|calls| - 2..] == [Call(EstablishCred, 0), Call(OpenSession, 0)]
  }

  /** The preparation and the session. */
  method Enter(h: PamHandle, names: Names, disableAuth: bool, noPrompt: bool) returns (ok: bool)
    requires h.Valid() && !h.session && h.calls == []
    modifies h
    ensures h.Valid() && ok == h.session
    ensures ok ==> Opened(h.calls, names, disableAuth, noPrompt) && Track(h.calls).value.creds
    ensures old(h.Willing()) ==> ok
  {
    ok := Prepare(h, names, disableAuth, noPrompt);
    if ok {
      ghost var before := h.calls;
      ok := h.Open();
      if ok {
        assert h.calls[..|before|] == before;
        AfterOpening(before);
      }
    }
  }

  lemma AfterOpening(before: seq<Call>)
    ensures var calls := before + [Call(EstablishCred, PAM_SUCCESS), Call(OpenSession, PAM_SUCCESS)];
            Track(calls).Some? ==> Track(calls).value.creds
  {
    var one, two := before + [Call(EstablishCred, PAM_SUCCESS)],
      before + [Call(EstablishCred, PAM_SUCCESS), Call(OpenSession, PAM_SUCCESS)];
    assert two[..|two| - 1] == one && one[..|one| - 1] == before;
  }

  /** The end of a handle's scope: it is dropped unless it is wrapped in
      ManuallyDrop. */
  method LeaveScope(h: PamHandle, wrapped: bool)
    requires h.handle ==> h.Valid()
    modifies h
    ensures wrapped ==> h.calls == old(h.calls) && h.handle == old(h.handle)
    ensures !wrapped && old(h.handle) ==> Accepted(h.calls) && old(h.calls) < h.calls
  {
    if !wrapped {
      h.Drop();
    }
  }

  datatype Return = Environment | Failure | StillWaiting

  /** The barrier's state after the fork. */
  function Forked(): World {
    Apply(START, Parent, Fork)
  }

  lemma ForkedIsReachable()
    ensures Inv(Forked()) && Reaches(START, Forked())
  {
    ReachesSelf(START);
    ReachesStep(START, START, Parent, Fork);
    StepKeepsInv(START, Parent, Fork);
  }

  /** The child's side of the fork, and every way out of it. `h` is its copy of the
      handle. It goes on to the command only after a parent that has finished its own
      preparation, and sleeps only for a parent that can still answer. */
  method ChildSide(h: PamHandle, wrapped: bool, around: Around) returns (r: Return, w: World)
    requires h.Valid()
    modifies h
    ensures wrapped ==> h.calls == old(h.calls)
    ensures Inv(w) && Reaches(START, w)
    ensures r.Environment? <==> around.exitSignal && around.group && Decides(w, Child, Continue)
    ensures r.Environment? ==> Announces(w.parent) && w.parent.ready
    ensures r.StillWaiting? ==> w.child.phase == Listening && CanWrite(w.parent.fds, Parent)
    ensures r.Failure? ==> Gone(w.child) || Decides(w, Child, Abort)
  {
    ForkedIsReachable();
    var pipe, rest;
    pipe, w, rest := Convert(Child, Forked(), around.peer);
    ReachesTrans(START, Forked(), w);
    if !around.exitSignal || !around.group {
      w := pipe.Abandon(START, w, FailSetup);
      LeaveScope(h, wrapped);
      return Failure, w;
    }
    ReachesStep(START, w, Child, FinishSetup);
    StepKeepsInv(w, Child, FinishSetup);
    w := Apply(w, Child, FinishSetup);
    ghost var prepared := w;
    var met;
    met, w := pipe.ReadyAndWait(w, rest);
    ReachesTrans(START, prepared, w);
    match met
    case Blocked => return StillWaiting, w;
    case Done(Err(_)) =>
      LeaveScope(h, wrapped);
      return Failure, w;
    case Done(Ok(decision)) =>
      LeaveScope(h, wrapped);
      return if decision == Continue then Environment else Failure, w;
  }

  /** The exit status of the parent process. */
  function ExitStatus(o: Supervisor.Outcome): Option<int> {
    match o
    case Exit(code) => Some(code)
    case Error(_) => Some(1)
    case _ => None
  }

  /** How `auth` went: what the parent process asked libpam, from the start to its
      end or its last sleep; if there is a child, what the child's copy of the handle
      was asked until the child returned, what it returned, how watching it went, and
      what had become of it then. */
  datatype Course = Course(parent: seq<Call>, child: Option<Forking>)

  datatype Forking = Forking(calls: seq<Call>, r: Return, barrier: World, watched: Supervisor.Outcome,
                             fate: Kernel.Fate)

  /** After the fork the child's copy of the handle is left alone, with the session
      open and the credentials there, and never ended. The parent ends its own when
      watching the child returns; until then it has asked nothing more. */
  ghost predicate Split(parent: seq<Call>, f: Forking, around: Around) {
    && around.sync && around.envlist && around.forks
    && Track(f.calls).Some?
    && Track(f.calls).value.open && Track(f.calls).value.creds
    && (forall c | c in f.calls :: !c.op.End?)
    && (if Supervisor.Returns(f.watched) then f.calls < parent else f.calls == parent)
    && (f.watched.Stalled? <==> Supervisor.ReachesBarrier(around.watch.ticks) && Supervisor.Mute(around.watch))
    && Inv(f.barrier) && Reaches(START, f.barrier)
    && (f.r.Environment? <==> around.exitSignal && around.group && Decides(f.barrier, Child, Continue))
    && (f.r.Environment? ==> f.barrier.parent.ready)
    && (f.watched.Exit? ==>
          match f.fate
          case Reaped(Exited(code)) => f.watched.code == code
          case Reaped(Killed(sig)) => f.watched.code == 128 + sig
          case Stolen(_) => f.watched.code == 1
          case _ => false)
  }

  lemma NotEnded(calls: seq<Call>)
    requires Track(calls).Some? && !Track(calls).value.ended
    ensures forall c | c in calls :: !c.op.End?
  {
    EndedOnlyByEnd(calls);
  }

  /** Both sides of a successful fork. */
  method Divide(h: PamHandle, around: Around) returns (f: Forking)
    requires h.Valid() && h.session && Track(h.calls).value.creds
    requires around.sync && around.envlist && around.forks
    requires Kernel.Sane(around.watch.s.k) && !around.watch.s.k.fate.Reaped?
    modifies h
    ensures f.calls == old(h.calls) && Split(h.calls, f, around)
    ensures Accepted(h.calls) <==> Supervisor.Returns(f.watched)
  {
    var wrapped := true;
    var copy := new PamHandle.Forked(h);
    var r, w := ChildSide(copy, wrapped, around);
    NotEnded(copy.calls);
    var watched, handler, m := Supervisor.WatchProcess(around.pid, around.watch);
    f := Forking(copy.calls, r, w, watched, m.s.k.fate);
    if Supervisor.Returns(watched) {
      // out of its wrapping
      h.Drop();
    }
  }

  /** `auth` from a started handle on. */
  method Auth(codes: seq<int>, names: Names, disableAuth: bool, noPrompt: bool, around: Around)
    returns (course: Course, status: Option<int>)
    requires Kernel.Sane(around.watch.s.k) && !around.watch.s.k.fate.Reaped?
    ensures Accepted(course.parent) <==> course.child == None || Supervisor.Returns(course.child.value.watched)
    ensures course.child.Some? <== around.sync && around.envlist && around.forks
                                   && forall i | 0 <= i < |codes| :: codes[i] == PAM_SUCCESS
    ensures course.child == None ==> status == None
    ensures course.child.Some? ==> Opened(course.child.value.calls, names, disableAuth, noPrompt)
    ensures course.child.Some? ==> Split(course.parent, course.child.value, around)
    ensures course.child.Some? ==>
              match (course.child.value.watched, course.child.value.fate)
              case (Exit(_), Reaped(Exited(code))) => status == Some(code)
              case (Exit(_), Reaped(Killed(sig))) => status == Some(128 + sig)
              case (Exit(_), Stolen(_)) => status == Some(1)
              case (Exit(_), _) => false
              case (Error(_), _) => status == Some(1)
              case _ => status == None
  {
    var h := new PamHandle(codes);
    var ok := Enter(h, names, disableAuth, noPrompt);
    if !ok || !around.sync || !around.envlist {
      LeaveScope(h, false);
      return Course(h.calls, None), None;
    }
    if !around.forks {
      h.Drop();
      return Course(h.calls, None), None;
    }
    var f := Divide(h, around);
    return Course(h.calls, Some(f)), ExitStatus(f.watched);
  }
}
