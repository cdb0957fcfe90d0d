/** The process table: who is whose child, who has died and not been waited for, and who is
    waiting. Stopped processes are not part of this model. */
module ProcessTree {
  import opened Wrappers

  type Pid = nat
  type Status = int

  const Init: Pid := 1

  /** children is in the order of their coming; ppid 0 is the kernel. */
  datatype Pcb = Pcb(ppid: Pid, pgid: nat, zombie: bool, exit: Status, children: seq<Pid>, wait: Option<int>)

  datatype Report = Report(waiter: Pid, pid: Pid, status: Status)

  datatype Table = Table(procs: map<Pid, Pcb>, next: Pid, reports: seq<Report>)

  ghost predicate Distinct(q: seq<Pid>) { forall i, j :: 0 <= i < j < |q| ==> q[i] != q[j] }

  /** waitSelectorMatch. */
  predicate Matches(sel: int, waiter: Pcb, pid: Pid, child: Pcb) {
    if sel > 0 then pid == sel
    else if sel == -1 then true
    else if sel == 0 then child.pgid == waiter.pgid
    else child.pgid == -sel
  }

  /** p is listed by one parent, older than itself and alive, unless it is init or a service
      of the kernel; only a process that is just dying may still have children. */
  ghost predicate Placed(t: Table, dying: set<Pid>, p: Pid)
    requires p in t.procs
  {
    var b := t.procs[p];
    && 0 < p < t.next && Distinct(b.children)
    && (b.ppid != 0 ==> b.ppid in t.procs && b.ppid < p && (t.procs[b.ppid].zombie ==> b.ppid in dying) && p in t.procs[b.ppid].children)
    && (forall c :: c in b.children ==> c in t.procs && t.procs[c].ppid == p)
    && (b.zombie ==> b.wait.None? && (p in dying || b.children == []))
  }

  ghost predicate Tree(t: Table, dying: set<Pid>) {
    && Init in t.procs && t.procs[Init].ppid == 0 && (t.procs[Init].zombie ==> Init in dying)
    && (forall p :: p in t.procs ==> Placed(t, dying, p))
  }

  /** Each status is reported once at most, and then its process is gone. */
  ghost predicate ReportedOnce(t: Table) {
    && (forall i, j :: 0 <= i < j < |t.reports| ==> t.reports[i].pid != t.reports[j].pid)
    && (forall i :: 0 <= i < |t.reports| ==> t.reports[i].pid < t.next && t.reports[i].pid !in t.procs)
  }

  /** Nobody waits for a child that is already a zombie. */
  ghost predicate NobodyMissed(t: Table) {
    forall p, c :: p in t.procs && t.procs[p].wait.Some? && c in t.procs && t.procs[c].zombie && t.procs[c].ppid == p ==>
      !Matches(t.procs[p].wait.value, t.procs[p], c, t.procs[c])
  }

  ghost predicate Inv(t: Table) { Tree(t, {}) && ReportedOnce(t) && NobodyMissed(t) }

  // ---- steps on the table ---------------------------------------------------------------------

  function Put(t: Table, p: Pid, b: Pcb): Table { t.(procs := t.procs[p := b]) }

  /** _reap: z leaves the table and its parent's list. */
  function Reap(t: Table, z: Pid): Table
    requires z in t.procs
  {
    var q := t.procs[z].ppid;
    var rest := t.procs - {z};
    t.(procs := if q in rest then rest[q := rest[q].(children := Without(rest[q].children, z))] else rest)
  }

  /** z's status answers q's wait. */
  function Answer(t: Table, q: Pid, z: Pid): Table
    requires z in t.procs && q in t.procs
  {
    var r := Reap(t, z);
    var w := if q in r.procs then Put(r, q, r.procs[q].(wait := None)) else r;
    w.(reports := w.reports + [Report(q, z, t.procs[z].exit)])
  }

  /** pid's first child becomes init's. */
  function Adopt(t: Table, pid: Pid): Table
    requires pid in t.procs && Init in t.procs && t.procs[pid].children != [] && t.procs[pid].children[0] in t.procs
  {
    var c := t.procs[pid].children[0];
    var a := Put(t, pid, t.procs[pid].(children := t.procs[pid].children[1..]));
    var b := Put(a, c, a.procs[c].(ppid := Init));
    Put(b, Init, b.procs[Init].(children := b.procs[Init].children + [c]))
  }

  lemma ReapKeepsTree(t: Table, z: Pid, dying: set<Pid>)
    requires Tree(t, dying) && z in t.procs && z != Init && t.procs[z].children == []
    ensures Tree(Reap(t, z), dying)
    ensures forall p :: p in Reap(t, z).procs <==> p in t.procs && p != z
    ensures forall p :: p in Reap(t, z).procs ==> Reap(t, z).procs[p] == t.procs[p].(children := Reap(t, z).procs[p].children)
  {
    hide Without;
    var r := Reap(t, z);
    assert Placed(t, dying, z);
    forall p | p in r.procs ensures Placed(r, dying, p) {
      ReapKeepsPlaced(t, z, dying, p);
    }
  }

  lemma ReapKeepsPlaced(t: Table, z: Pid, dying: set<Pid>, p: Pid)
    requires Tree(t, dying) && z in t.procs && t.procs[z].children == [] && p in t.procs && p != z
    ensures p in Reap(t, z).procs && Placed(Reap(t, z), dying, p)
  {
    hide Without, Reap;
    var q := t.procs[p].ppid;
    assert Placed(t, dying, p) && Placed(t, dying, z);
    ReapAt(t, z, p);
    if q != 0 {
      assert Placed(t, dying, q);
      ReapAt(t, z, q);
    }
    forall c | c in t.procs[p].children && c != z ensures c in Reap(t, z).procs && Reap(t, z).procs[c].ppid == p {
      ReapAt(t, z, c);
    }
  }

  /** What a reap leaves of another process: its list without z, if z was in it. */
  lemma ReapAt(t: Table, z: Pid, p: Pid)
    requires z in t.procs && p in t.procs && p != z && Distinct(t.procs[p].children)
    requires z in t.procs[p].children ==> t.procs[z].ppid == p
    ensures Reap(t, z).next == t.next && p in Reap(t, z).procs
    ensures var b := Reap(t, z).procs[p];
      && b == t.procs[p].(children := b.children) && Distinct(b.children) && |b.children| <= |t.procs[p].children|
      && forall c :: c in b.children <==> c in t.procs[p].children && c != z
  {
    hide Without;
    WithoutOne(t.procs[p].children, z);
  }

  lemma AdoptKeepsTree(t: Table, pid: Pid, dying: set<Pid>)
    requires Tree(t, dying) && pid in t.procs && pid != Init && Init !in dying && t.procs[pid].children != []
    ensures t.procs[pid].children[0] in t.procs && t.procs[t.procs[pid].children[0]].ppid == pid
    ensures Tree(Adopt(t, pid), dying)
  {
    assert Placed(t, dying, pid);
    var c := t.procs[pid].children[0];
    assert c in t.procs[pid].children && Placed(t, dying, c) && Placed(t, dying, Init);
    var r := Adopt(t, pid);
    assert Init in r.procs && r.procs[Init].ppid == 0 && r.procs[Init].zombie == t.procs[Init].zombie;
    hide Adopt, Placed;
    forall p | p in r.procs ensures Placed(r, dying, p) {
      AdoptPlaces(t, pid, dying, p);
    }
  }

  lemma AdoptPlaces(t: Table, pid: Pid, dying: set<Pid>, p: Pid)
    requires Tree(t, dying) && pid in t.procs && pid != Init && Init !in dying && t.procs[pid].children != []
    requires t.procs[pid].children[0] in t.procs && p in Adopt(t, pid).procs
    ensures Placed(Adopt(t, pid), dying, p)
  {
    var c, r := t.procs[pid].children[0], Adopt(t, pid);
    assert c in t.procs[pid].children;
    assert Placed(t, dying, p) && Placed(t, dying, pid) && Placed(t, dying, c) && Placed(t, dying, Init);
    if t.procs[p].ppid != 0 { assert Placed(t, dying, t.procs[p].ppid); }
    hide Tree;
    forall x | x in r.procs[p].children ensures x in r.procs && r.procs[x].ppid == p {
      assert x == c || x in t.procs[p].children;
    }
  }

  /** Setting or clearing the wait of a process that is alive. */
  lemma WaitKeepsTree(t: Table, q: Pid, wait: Option<int>, dying: set<Pid>)
    requires Tree(t, dying) && q in t.procs && !t.procs[q].zombie
    ensures Tree(Put(t, q, t.procs[q].(wait := wait)), dying)
  {
    var r := Put(t, q, t.procs[q].(wait := wait));
    forall p | p in r.procs ensures Placed(r, dying, p) {
      assert Placed(t, dying, p);
    }
  }

  lemma AnswerKeepsTree(t: Table, q: Pid, z: Pid, dying: set<Pid>)
    requires Tree(t, dying) && z in t.procs && z != Init && t.procs[z].children == [] && q in t.procs && q != z && !t.procs[q].zombie
    ensures Tree(Answer(t, q, z), dying)
    ensures forall p :: p in Answer(t, q, z).procs <==> p in t.procs && p != z
    ensures forall p :: p in Answer(t, q, z).procs ==>
      Answer(t, q, z).procs[p] == t.procs[p].(children := Answer(t, q, z).procs[p].children, wait := if p == q then None else t.procs[p].wait)
  {
    ReapKeepsTree(t, z, dying);
    WaitKeepsTree(Reap(t, z), q, None, dying);
    TreeIgnoresReports(Put(Reap(t, z), q, Reap(t, z).procs[q].(wait := None)), Answer(t, q, z).reports, dying);
  }

  lemma TreeIgnoresReports(t: Table, reports: seq<Report>, dying: set<Pid>)
    requires Tree(t, dying)
    ensures Tree(t.(reports := reports), dying)
  {
    var r := t.(reports := reports);
    forall p | p in r.procs ensures Placed(r, dying, p) {
      assert Placed(t, dying, p);
    }
  }

  lemma AnswerReportsOnce(t: Table, q: Pid, z: Pid)
    requires ReportedOnce(t) && z in t.procs && z < t.next && q in t.procs && q != z
    requires forall p :: p in Answer(t, q, z).procs <==> p in t.procs && p != z
    ensures ReportedOnce(Answer(t, q, z))
  {
    var r := Answer(t, q, z);
    assert forall i :: 0 <= i < |t.reports| ==> r.reports[i] == t.reports[i];
  }

  /** Nobody but dead's own parent waits for a zombie. */
  ghost predicate NobodyMissedBut(t: Table, dead: set<Pid>) {
    forall p, c :: p in t.procs && t.procs[p].wait.Some? && c in t.procs && c !in dead && t.procs[c].zombie && t.procs[c].ppid == p ==>
      !Matches(t.procs[p].wait.value, t.procs[p], c, t.procs[c])
  }

  /** In the middle of pid's exit, begun in a. */
  ghost predicate Exiting(a: Table, t: Table, pid: Pid) {
    && Tree(t, {pid}) && ReportedOnce(t) && NobodyMissedBut(t, {pid}) && t.next == a.next
    && pid in t.procs && a.reports <= t.reports
    && (forall p :: p in t.procs ==>
          && p in a.procs && t.procs[p].pgid == a.procs[p].pgid && t.procs[p].zombie == a.procs[p].zombie && t.procs[p].exit == a.procs[p].exit
          && (t.procs[p].ppid == a.procs[p].ppid || (a.procs[p].ppid == pid && t.procs[p].ppid == Init)))
    && (forall p :: p in a.procs && p !in t.procs ==>
          a.procs[p].zombie && a.procs[p].ppid == pid && Told(a, t, Init, p, a.procs[p].exit))
    && (forall p, c :: p in a.procs && p !in t.procs && c in a.procs && c !in t.procs ==> p == c)
    && (forall p :: p in t.procs ==> t.procs[p].wait == a.procs[p].wait || (p == Init && t.procs[Init].wait.None? && Fewer(a, t, pid)))
  }

  /** q waited for c, was told how it ended, and waits no longer. */
  ghost predicate Told(a: Table, t: Table, q: Pid, c: Pid, status: Status) {
    && q in a.procs && c in a.procs && a.procs[q].wait.Some? && Matches(a.procs[q].wait.value, a.procs[q], c, a.procs[c])
    && q in t.procs && t.procs[q].wait.None? && Report(q, c, status) in t.reports
  }

  /** A process other than pid has gone. */
  ghost predicate Fewer(a: Table, t: Table, pid: Pid) {
    exists c :: c in a.procs && c !in t.procs && c != pid
  }

  /** One child of a dying process goes over to init, which may be waiting for it. */
  function Adopted(t: Table, pid: Pid): Table
    requires pid in t.procs && Init in t.procs && t.procs[pid].children != [] && t.procs[pid].children[0] in t.procs
  {
    var c := t.procs[pid].children[0];
    var r := Adopt(t, pid);
    var init := r.procs[Init];
    if r.procs[c].zombie && init.wait.Some? && Matches(init.wait.value, init, c, r.procs[c]) then Answer(r, Init, c) else r
  }

  /** Init takes the child's status at once. */
  predicate InitWants(t: Table, c: Pid)
    requires c in t.procs && Init in t.procs
  {
    t.procs[c].zombie && t.procs[Init].wait.Some? && Matches(t.procs[Init].wait.value, t.procs[Init], c, t.procs[c])
  }

  lemma AdoptedFacts(t: Table, pid: Pid)
    requires Tree(t, {pid}) && pid in t.procs && pid != Init && t.procs[pid].children != []
    ensures var c := t.procs[pid].children[0];
            && c in t.procs && c != Init && c != pid && t.procs[c].ppid == pid && c < t.next
            && (t.procs[c].zombie ==> t.procs[c].children == [])
    ensures var c, r := t.procs[pid].children[0], Adopt(t, pid);
            && r.reports == t.reports && r.next == t.next && r.procs.Keys == t.procs.Keys && Tree(r, {pid})
            && (forall p :: p in r.procs ==>
                  r.procs[p] == t.procs[p].(children := r.procs[p].children, ppid := if p == c then Init else t.procs[p].ppid))
            && r.procs[pid].children == t.procs[pid].children[1..]
            && (r.procs[c].zombie ==> r.procs[c].children == [])
  {
    hide Tree, Placed, Adopt;
    FirstChild(t, pid);
    AdoptIs(t, pid);
    AdoptKeepsTree(t, pid, {pid});
  }

  lemma AdoptIs(t: Table, pid: Pid)
    requires pid in t.procs && Init in t.procs && pid != Init && t.procs[pid].children != []
    requires var c := t.procs[pid].children[0]; c in t.procs && c != Init && c != pid
    ensures var c, r := t.procs[pid].children[0], Adopt(t, pid);
            && r.reports == t.reports && r.next == t.next && r.procs.Keys == t.procs.Keys
            && (forall p :: p in r.procs ==>
                  r.procs[p] == t.procs[p].(children := r.procs[p].children, ppid := if p == c then Init else t.procs[p].ppid))
            && r.procs[pid].children == t.procs[pid].children[1..] && r.procs[c].children == t.procs[c].children
  {
  }

  lemma FirstChild(t: Table, pid: Pid)
    requires Tree(t, {pid}) && pid in t.procs && pid != Init && t.procs[pid].children != []
    ensures Init in t.procs
    ensures var c := t.procs[pid].children[0];
            && c in t.procs && c != Init && c != pid && t.procs[c].ppid == pid && c < t.next
            && (t.procs[c].zombie ==> t.procs[c].children == [])
  {
    var c := t.procs[pid].children[0];
    assert Placed(t, {pid}, pid) && c in t.procs[pid].children;
    assert Placed(t, {pid}, c);
  }

  lemma AnswerFacts(t: Table, z: Pid, pid: Pid)
    requires Tree(t, {pid}) && z in t.procs && z != Init && z != pid && pid != Init && t.procs[z].children == [] && Init in t.procs
    requires pid in t.procs && t.procs[z].ppid == Init && ReportedOnce(t) && z < t.next
    ensures var r := Answer(t, Init, z);
            && Tree(r, {pid}) && ReportedOnce(r) && r.next == t.next && r.reports == t.reports + [Report(Init, z, t.procs[z].exit)]
            && (forall p :: p in r.procs <==> p in t.procs && p != z)
            && (forall p :: p in r.procs ==> r.procs[p] == t.procs[p].(children := r.procs[p].children, wait := if p == Init then None else t.procs[p].wait))
            && r.procs[pid].children == t.procs[pid].children
  {
    AnswerKeepsTree(t, Init, z, {pid});
    AnswerReportsOnce(t, Init, z);
    hide Tree, ReportedOnce;
  }

  lemma AdoptKeepsExiting(a: Table, t: Table, r: Table, pid: Pid, c: Pid)
    requires Exiting(a, t, pid) && Tree(r, {pid}) && c in t.procs && t.procs[c].ppid == pid
    requires r.reports == t.reports && r.next == t.next && r.procs.Keys == t.procs.Keys
    requires forall p :: p in r.procs ==>
      r.procs[p] == t.procs[p].(children := r.procs[p].children, ppid := if p == c then Init else t.procs[p].ppid)
    requires Init in r.procs && !InitWants(r, c) && pid != Init && c != pid
    ensures Exiting(a, r, pid)
  {
    hide Tree;
  }

  lemma AnswerKeepsExiting(a: Table, t: Table, r: Table, m: Table, pid: Pid, c: Pid)
    requires Exiting(a, t, pid) && Tree(m, {pid}) && ReportedOnce(m) && c in t.procs && t.procs[c].ppid == pid && t.procs[c].zombie
    requires r.reports == t.reports && r.next == t.next && r.procs.Keys == t.procs.Keys
    requires forall p :: p in r.procs ==>
      r.procs[p] == t.procs[p].(children := r.procs[p].children, ppid := if p == c then Init else t.procs[p].ppid)
    requires m.next == r.next && m.reports == r.reports + [Report(Init, c, r.procs[c].exit)] && c != pid && pid != Init
    requires Init in t.procs && c != Init && InitWants(r, c) && forall p :: p in m.procs <==> p in r.procs && p != c
    requires forall p :: p in m.procs ==>
      m.procs[p] == r.procs[p].(children := m.procs[p].children, wait := if p == Init then None else r.procs[p].wait)
    ensures Exiting(a, m, pid)
  {
    hide Tree, ReportedOnce;
    assert m.reports[|m.reports| - 1] == Report(Init, c, r.procs[c].exit);
    forall x | x in t.reports ensures x in m.reports {}
    assert forall p :: p in a.procs && p !in t.procs ==> t.procs[Init].wait.None?;
    assert Told(a, m, Init, c, a.procs[c].exit);
    assert Fewer(a, m, pid);
  }

  lemma AdoptedStep(a: Table, t: Table, pid: Pid)
    requires Exiting(a, t, pid) && pid != Init && t.procs[pid].children != []
    ensures t.procs[pid].children[0] in t.procs
    ensures Exiting(a, Adopted(t, pid), pid)
    ensures Adopted(t, pid).procs[pid].children == t.procs[pid].children[1..]
  {
    AdoptedFacts(t, pid);
    hide Exiting, Tree, Adopt, Answer, ReportedOnce;
    ReportsOfExiting(a, t, pid);
    var c := t.procs[pid].children[0];
    var r := Adopt(t, pid);
    if InitWants(r, c) {
      AnswerFacts(r, c, pid);
      AnswerKeepsExiting(a, t, r, Answer(r, Init, c), pid, c);
    } else {
      AdoptKeepsExiting(a, t, r, pid, c);
    }
  }

  lemma ReportsOfExiting(a: Table, t: Table, pid: Pid)
    requires Exiting(a, t, pid)
    ensures Init in t.procs && pid in t.procs && Tree(t, {pid})
    ensures forall r: Table :: r.reports == t.reports && r.next == t.next && r.procs.Keys == t.procs.Keys ==> ReportedOnce(r)
  {
  }

  /** What the exit of pid has changed: whose parent and state, who is gone, and who among
      those waiting has been told. Init is told of one of the children at most. */
  ghost predicate Gone(a: Table, t: Table, pid: Pid, status: Status) {
    && a.reports <= t.reports && t.next == a.next && pid in a.procs
    && (forall p :: p in t.procs ==>
          && p in a.procs && t.procs[p].pgid == a.procs[p].pgid
          && t.procs[p].ppid == (if a.procs[p].ppid == pid then Init else a.procs[p].ppid)
          && t.procs[p].zombie == (a.procs[p].zombie || p == pid)
          && t.procs[p].exit == if p == pid then status else a.procs[p].exit)
    && (forall p :: p in a.procs && p !in t.procs && p != pid ==>
          a.procs[p].zombie && a.procs[p].ppid == pid && Told(a, t, Init, p, a.procs[p].exit))
    && (pid !in t.procs ==> a.procs[pid].ppid == 0 || Told(a, t, a.procs[pid].ppid, pid, status))
    && (forall p, c :: p in a.procs && p !in t.procs && c in a.procs && c !in t.procs && p != pid ==>
          p == c || (c == pid && a.procs[pid].ppid != Init))
    && (forall p :: p in t.procs && p != pid ==>
          || t.procs[p].wait == a.procs[p].wait
          || (t.procs[p].wait.None? && ((p == Init && Fewer(a, t, pid)) || (p == a.procs[pid].ppid && pid !in t.procs))))
  }

  function Zombie(t: Table, pid: Pid, status: Status): Table
    requires pid in t.procs
  {
    Put(t, pid, t.procs[pid].(zombie := true, exit := status, wait := None))
  }

  lemma ExitBegins(t: Table, pid: Pid, status: Status)
    requires Inv(t) && pid in t.procs && pid != Init && !t.procs[pid].zombie
    ensures Exiting(Zombie(t, pid, status), Zombie(t, pid, status), pid) && t.procs[pid].ppid != pid
  {
    var r := Zombie(t, pid, status);
    forall p | p in r.procs ensures Placed(r, {pid}, p) {
      assert Placed(t, {}, p);
    }
    assert Placed(t, {}, Init) && Placed(t, {}, pid);
  }

  /** With its children gone, the dying process is an ordinary zombie that only its parent
      may still be waiting for. */
  lemma ExitEnds(a: Table, t: Table, pid: Pid)
    requires Exiting(a, t, pid) && t.procs[pid].children == [] && a.procs[pid].zombie && pid != Init
    ensures Tree(t, {}) && ReportedOnce(t) && NobodyMissedBut(t, {pid}) && pid < t.next
    ensures var q := t.procs[pid].ppid;
      if q in t.procs then
        && !t.procs[q].zombie && q != pid
        && (t.procs[q].wait.None? || !Matches(t.procs[q].wait.value, t.procs[q], pid, t.procs[pid]) ==> NobodyMissed(t))
      else q == 0 && NobodyMissed(t)
  {
    assert Placed(t, {pid}, pid);
    forall p | p in t.procs ensures Placed(t, {}, p) {
      assert Placed(t, {pid}, p);
      assert t.procs[p].ppid != 0 ==> p in t.procs[t.procs[p].ppid].children;
    }
  }

  lemma ExitTells(before: Table, t: Table, pid: Pid, status: Status)
    requires pid in before.procs && before.procs[pid].ppid != pid
    requires Exiting(Zombie(before, pid, status), t, pid) && t.procs[pid].children == []
    ensures Gone(before, t, pid, status) && t.procs[pid].ppid == before.procs[pid].ppid
    ensures t.procs[pid].zombie && t.procs[pid].exit == status
  {
    hide Tree, Placed, ReportedOnce, NobodyMissedBut;
    NoChildrenLeft(t, pid);
  }

  lemma NoChildrenLeft(t: Table, pid: Pid)
    requires Tree(t, {pid}) && pid in t.procs && t.procs[pid].children == []
    ensures forall p :: p in t.procs ==> t.procs[p].ppid != pid
  {
    assert Placed(t, {pid}, pid);
    forall p | p in t.procs ensures t.procs[p].ppid != pid {
      assert Placed(t, {pid}, p);
      assert t.procs[p].ppid != 0 ==> p in t.procs[t.procs[p].ppid].children;
    }
  }

  /** The process itself leaves the table, its parent having been told if there is one. */
  lemma GoneStays(before: Table, t: Table, r: Table, pid: Pid, status: Status)
    requires Gone(before, t, pid, status) && pid in t.procs && pid != Init
    requires (forall p :: p in r.procs <==> p in t.procs && p != pid) && t.reports <= r.reports && r.next == t.next
    requires var q := before.procs[pid].ppid;
      && (forall p :: p in r.procs ==>
            r.procs[p] == t.procs[p].(children := r.procs[p].children, wait := if p == q then None else t.procs[p].wait))
      && q != pid && (q in t.procs ==> t.procs[q].wait.Some? && Matches(t.procs[q].wait.value, t.procs[q], pid, t.procs[pid]) && Report(q, pid, status) in r.reports)
      && (q !in t.procs ==> q == 0)
    ensures Gone(before, r, pid, status)
  {
    forall x | x in t.reports ensures x in r.reports {}
  }

  lemma AnsweredInv(t: Table, q: Pid, z: Pid)
    requires Tree(t, {}) && ReportedOnce(t) && NobodyMissedBut(t, {z}) && z in t.procs && z != Init && z < t.next
    requires t.procs[z].zombie && q in t.procs && q != z && t.procs[z].ppid == q && !t.procs[q].zombie
    ensures Inv(Answer(t, q, z))
    ensures Answer(t, q, z).reports == t.reports + [Report(q, z, t.procs[z].exit)] && Answer(t, q, z).next == t.next
    ensures forall p :: p in Answer(t, q, z).procs <==> p in t.procs && p != z
    ensures forall p :: p in Answer(t, q, z).procs ==>
      Answer(t, q, z).procs[p] == t.procs[p].(children := Answer(t, q, z).procs[p].children, wait := if p == q then None else t.procs[p].wait)
  {
    assert Placed(t, {}, z);
    AnswerKeepsTree(t, q, z, {});
    AnswerReportsOnce(t, q, z);
    hide Tree, ReportedOnce, Placed;
  }

  lemma ReapedInv(t: Table, z: Pid)
    requires Inv(t) && z in t.procs && z != Init && t.procs[z].zombie
    ensures Inv(Reap(t, z)) && Reap(t, z).reports == t.reports && Reap(t, z).next == t.next
    ensures forall p :: p in Reap(t, z).procs <==> p in t.procs && p != z
    ensures forall p :: p in Reap(t, z).procs ==> Reap(t, z).procs[p] == t.procs[p].(children := Reap(t, z).procs[p].children)
  {
    assert Placed(t, {}, z);
    ReapKeepsTree(t, z, {});
    hide Tree, Placed;
  }

  lemma LastReport(reports: seq<Report>)
    ensures reports != [] ==> reports[|reports| - 1] in reports
  {
  }

  ghost predicate Wanted(t: Table, pid: Pid, sel: int, c: Pid) {
    pid in t.procs && c in t.procs && Matches(sel, t.procs[pid], c, t.procs[c])
  }

  lemma KidsThere(t: Table, pid: Pid)
    requires Inv(t) && pid in t.procs
    ensures forall c :: c in t.procs[pid].children ==> c in t.procs && t.procs[c].ppid == pid
  {
    assert Placed(t, {}, pid);
  }

  lemma TakenInv(t: Table, q: Pid, z: Pid)
    requires Inv(t) && q in t.procs && !t.procs[q].zombie && z in t.procs && t.procs[z].ppid == q && t.procs[z].zombie
    ensures Inv(Answer(t, q, z)) && Answer(t, q, z).next == t.next
  {
    assert Placed(t, {}, z);
    AnsweredInv(t, q, z);
  }

  lemma ParkedInv(t: Table, q: Pid, sel: int)
    requires Inv(t) && q in t.procs && !t.procs[q].zombie
    requires forall i :: 0 <= i < |t.procs[q].children| ==> var c := t.procs[q].children[i]; !(Wanted(t, q, sel, c) && t.procs[c].zombie)
    ensures Inv(Put(t, q, t.procs[q].(wait := Some(sel))))
  {
    WaitKeepsTree(t, q, Some(sel), {});
    forall c | c in t.procs && t.procs[c].ppid == q && t.procs[c].zombie ensures !Wanted(t, q, sel, c) {
      assert Placed(t, {}, c);
    }
    hide Tree;
  }

  // ---- the process table itself --------------------------------------------------------------------

  datatype Answered = NoChild | Status(pid: Pid, status: Status) | NotYet | Parked

  /** The answer to a wait for these children: there are none, or one of them that has died, or
      none of them has. */
  ghost predicate Concerns(t: Table, cs: set<Pid>, r: Answered) {
    && (r == NoChild <==> cs == {})
    && (r.Status? <==> exists c :: c in cs && c in t.procs && t.procs[c].zombie)
    && (r.Status? ==> r.pid in cs && r.pid in t.procs && t.procs[r.pid].zombie && r.status == t.procs[r.pid].exit)
  }

  /** Any child, that child, those in the caller's own group, or those in group -sel. */
  ghost predicate ConcernsSelected(t: Table, pid: Pid, sel: int, r: Answered)
    requires pid in t.procs
  {
    var kids := set c | c in t.procs[pid].children && c in t.procs;
    && (sel == -1 ==> Concerns(t, kids, r))
    && (sel > 0 ==> Concerns(t, (set c | c in kids && c == sel), r))
    && (sel == 0 ==> Concerns(t, (set c | c in kids && t.procs[c].pgid == t.procs[pid].pgid), r))
    && (sel < -1 ==> Concerns(t, (set c | c in kids && t.procs[c].pgid == -sel), r))
  }

  lemma ChildrenListed(t: Table, pid: Pid)
    requires pid in t.procs
    ensures forall c :: c in t.procs[pid].children ==> exists i :: 0 <= i < |t.procs[pid].children| && t.procs[pid].children[i] == c
  {
  }

  /** What a wait answers concerns those it is for. */
  lemma WaitConcerns(t: Table, pid: Pid, sel: int, r: Answered)
    requires pid in t.procs && forall c :: c in t.procs[pid].children ==> c in t.procs
    requires r == NoChild <==> forall c :: c in t.procs[pid].children ==> !Wanted(t, pid, sel, c)
    requires r.Status? <==> exists c :: c in t.procs[pid].children && Wanted(t, pid, sel, c) && t.procs[c].zombie
    requires r.Status? ==>
      r.pid in t.procs[pid].children && Wanted(t, pid, sel, r.pid) && t.procs[r.pid].zombie && r.status == t.procs[r.pid].exit
    ensures ConcernsSelected(t, pid, sel, r)
  {
    hide Wanted;
    SelectorMeans(t, pid, sel);
    var kids := set c | c in t.procs[pid].children && c in t.procs;
    var cs := set c | c in kids && Wanted(t, pid, sel, c);
    assert Concerns(t, cs, r) by {
      if r != NoChild {
        var c :| c in t.procs[pid].children && Wanted(t, pid, sel, c);
        assert c in cs;
      }
    }
    assert sel == -1 ==> cs == kids;
    assert sel > 0 ==> cs == set c | c in kids && c == sel;
    assert sel == 0 ==> cs == set c | c in kids && t.procs[c].pgid == t.procs[pid].pgid;
    assert sel < -1 ==> cs == set c | c in kids && t.procs[c].pgid == -sel;
  }

  /** Whom the exit of pid has told: a waiting parent exactly if it waits for any child, for
      this one, or for the group of this one; and init only of children it waits for so. */
  ghost predicate ToldRightly(a: Table, t: Table, pid: Pid)
    requires pid in a.procs
  {
    var q := a.procs[pid].ppid;
    && (q == 0 ==> pid !in t.procs)
    && (q != 0 && q != Init && q in a.procs ==>
          (pid !in t.procs <==>
            (match a.procs[q].wait
             case None => false
             case Some(w) =>
               w == -1 || (w > 0 && w == pid) || (w == 0 && a.procs[pid].pgid == a.procs[q].pgid) || (w < -1 && a.procs[pid].pgid == -w))))
    && (Init in a.procs ==> forall c :: c in a.procs && c !in t.procs && (c != pid || q == Init) ==>
          match a.procs[Init].wait
          case None => false
          case Some(w) =>
            w == -1 || (w > 0 && w == c) || (w == 0 && a.procs[c].pgid == a.procs[Init].pgid) || (w < -1 && a.procs[c].pgid == -w))
  }

  lemma ExitToldRightly(a: Table, t: Table, pid: Pid, status: Status)
    requires Inv(a) && Gone(a, t, pid, status) && Inv(t) && pid != Init && !a.procs[pid].zombie
    requires a.procs[pid].ppid == 0 ==> pid !in t.procs
    ensures ToldRightly(a, t, pid)
  {
    var q := a.procs[pid].ppid;
    assert Placed(a, {}, pid);
    hide Tree, ReportedOnce;
  }

  lemma KernelIsNoProcess(t: Table)
    requires Tree(t, {})
    ensures 0 !in t.procs
  {
    assert 0 in t.procs ==> Placed(t, {}, 0);
  }

  /** Whom a wait is for, selector by selector. */
  lemma SelectorMeans(t: Table, q: Pid, sel: int)
    requires q in t.procs
    ensures forall c :: c in t.procs ==>
      (Wanted(t, q, sel, c) <==> (sel > 0 && c == sel) || sel == -1 || (sel == 0 && t.procs[c].pgid == t.procs[q].pgid) || (sel < -1 && t.procs[c].pgid == -sel))
  {
  }

  class Processes {
    var procs: map<Pid, Pcb>
    var next: Pid
    var reports: seq<Report>
    var halted: bool

    function Now(): Table
      reads this
    {
      Table(procs, next, reports)
    }

    /** Until init has exited. */
    ghost predicate Running()
      reads this
    {
      !halted && Inv(Now())
    }

    /** The kernel with its first process. */
    constructor ()
      ensures Running() && procs.Keys == {Init} && next == Init + 1 && reports == []
    {
      procs := map[Init := Pcb(0, Init, false, 0, [], None)];
      next, reports, halted := Init + 1, [], false;
    }

    /** _reap, and the answer to q's wait. */
    method ReapFor(q: Pid, z: Pid)
      requires z in procs && q in procs
      modifies this`procs, this`reports
      ensures Now() == Answer(old(Now()), q, z)
    {
      var status := procs[z].exit;
      ReapIt(z);
      if q in procs {
        procs := procs[q := procs[q].(wait := None)];
      }
      reports := reports + [Report(q, z, status)];
    }

    method ReapIt(z: Pid)
      requires z in procs
      modifies this`procs
      ensures Now() == Reap(old(Now()), z)
    {
      var q := procs[z].ppid;
      procs := procs - {z};
      if q in procs {
        procs := procs[q := procs[q].(children := Without(procs[q].children, z))];
      }
    }

    /** The part of _exitProcess that gives the children to init. */
    method Reparent(pid: Pid, ghost a: Table)
      requires Exiting(a, Now(), pid) && pid != Init
      modifies this`procs, this`reports
      ensures Exiting(a, Now(), pid) && pid in procs && procs[pid].children == []
    {
      hide Exiting, Adopted;
      ReportsOfExiting(a, Now(), pid);
      while procs[pid].children != []
        invariant Exiting(a, Now(), pid) && pid in procs && Init in procs
        decreases |procs[pid].children|
      {
        AdoptedStep(a, Now(), pid);
        ReportsOfExiting(a, Adopted(Now(), pid), pid);
        AdoptFirst(pid);
      }
    }

    method AdoptFirst(pid: Pid)
      requires pid in procs && Init in procs && procs[pid].children != [] && procs[pid].children[0] in procs
      modifies this`procs, this`reports
      ensures Now() == Adopted(old(Now()), pid)
    {
      var c := procs[pid].children[0];
      procs := procs[pid := procs[pid].(children := procs[pid].children[1..])];
      procs := procs[c := procs[c].(ppid := Init)];
      procs := procs[Init := procs[Init].(children := procs[Init].children + [c])];
      var init := procs[Init];
      if procs[c].zombie && init.wait.Some? && Matches(init.wait.value, init, c, procs[c]) {
        ReapFor(Init, c);
      }
    }

    /** _exitProcess. */
    method Exit(pid: Pid, status: Status)
      requires Running() && pid in procs && !procs[pid].zombie
      modifies this
      ensures halted <==> pid == Init
      ensures pid != Init ==> Running() && Gone(old(Now()), Now(), pid, status)
      ensures pid != Init ==> ToldRightly(old(Now()), Now(), pid)
    {
      hide Inv, Exiting, Gone, NobodyMissed, Answer, Reap, Tree, Placed, ReportedOnce, NobodyMissedBut;
      if pid == Init {
        procs, halted := procs - {Init}, true;
        return;
      }
      ghost var before := Now();
      ExitBegins(before, pid, status);
      procs := procs[pid := procs[pid].(zombie := true, exit := status, wait := None)];
      ghost var a := Now();
      Reparent(pid, a);
      ExitEnds(a, Now(), pid);
      ExitTells(before, Now(), pid, status);
      BuryOrTell(pid, before, status);
      ExitToldRightly(before, Now(), pid, status);
    }

    /** The end of _exitProcess: a waiting parent is answered, an orphan is reaped, and
        otherwise the zombie stays. */
    method BuryOrTell(pid: Pid, ghost before: Table, ghost status: Status)
      requires !halted && pid in procs && pid in before.procs && pid != Init && pid < next
      requires Tree(Now(), {}) && ReportedOnce(Now()) && NobodyMissedBut(Now(), {pid}) && procs[pid].zombie && procs[pid].exit == status
      requires var q := procs[pid].ppid;
        if q in procs then
          && !procs[q].zombie && q != pid
          && (procs[q].wait.None? || !Matches(procs[q].wait.value, procs[q], pid, procs[pid]) ==> NobodyMissed(Now()))
        else q == 0 && NobodyMissed(Now())
      requires Gone(before, Now(), pid, status) && procs[pid].ppid == before.procs[pid].ppid
      modifies this`procs, this`reports
      ensures Running() && Gone(before, Now(), pid, status)
      ensures before.procs[pid].ppid == 0 ==> pid !in procs
    {
      hide Gone, NobodyMissed, NobodyMissedBut, Answer, Reap, Tree, ReportedOnce, Placed, Matches;
      KernelIsNoProcess(Now());
      ghost var t := Now();
      var q := procs[pid].ppid;
      if q in procs {
        if procs[q].wait.Some? && Matches(procs[q].wait.value, procs[q], pid, procs[pid]) {
          AnsweredInv(t, q, pid);
          ReapFor(q, pid);
          LastReport(reports);
          GoneStays(before, t, Now(), pid, status);
        }
      } else {
        ReapedInv(t, pid);
        ReapIt(pid);
        GoneStays(before, t, Now(), pid, status);
      }
    }

    /** WAIT: the first matching zombie child in the order of their coming. */
    method Wait(pid: Pid, sel: int, nohang: bool) returns (r: Answered)
      requires Running() && pid in procs && !procs[pid].zombie && procs[pid].wait.None?
      modifies this`procs, this`reports
      ensures Running() && next == old(next)
      ensures var kids := old(procs)[pid].children;
        match r
        case NoChild => Now() == old(Now()) && forall i :: 0 <= i < |kids| ==> !Wanted(old(Now()), pid, sel, kids[i])
        case Status(z, status) =>
          && (exists i :: 0 <= i < |kids| && kids[i] == z && Wanted(old(Now()), pid, sel, z) && old(procs)[z].zombie
                && forall j :: 0 <= j < i ==> !(Wanted(old(Now()), pid, sel, kids[j]) && old(procs)[kids[j]].zombie))
          && status == old(procs)[z].exit && Now() == Answer(old(Now()), pid, z)
        case _ =>
          && (exists i :: 0 <= i < |kids| && Wanted(old(Now()), pid, sel, kids[i]))
          && (forall i :: 0 <= i < |kids| ==> !(Wanted(old(Now()), pid, sel, kids[i]) && old(procs)[kids[i]].zombie))
          && Now() == if nohang then old(Now()) else Put(old(Now()), pid, old(procs)[pid].(wait := Some(sel)))
      ensures r == NotYet ==> nohang
      ensures r == Parked ==> !nohang
      ensures ConcernsSelected(old(Now()), pid, sel, r)
    {
      hide Inv, Answer;
      KidsThere(Now(), pid);
      ghost var before := Now();
      var kids := procs[pid].children;
      var any := false;
      for i := 0 to |kids|
        invariant any <==> exists j :: 0 <= j < i && Wanted(Now(), pid, sel, kids[j])
        invariant Now() == old(Now())
        invariant forall j :: 0 <= j < i ==> !(Wanted(Now(), pid, sel, kids[j]) && procs[kids[j]].zombie)
      {
        var c := kids[i];
        assert c in kids && (Wanted(Now(), pid, sel, c) <==> Matches(sel, procs[pid], c, procs[c]));
        if Matches(sel, procs[pid], c, procs[c]) {
          any := true;
          if procs[c].zombie {
            TakenInv(Now(), pid, c);
            r := Status(c, procs[c].exit);
            WaitConcerns(before, pid, sel, r);
            ReapFor(pid, c);
            return;
          }
        }
      }
      ChildrenListed(before, pid);
      r := if !any then NoChild else if nohang then NotYet else Parked;
      WaitConcerns(before, pid, sel, r);
      if !any || nohang { return; }
      ParkedInv(Now(), pid, sel);
      procs := procs[pid := procs[pid].(wait := Some(sel))];
    }

    /** A signal interrupts pid's wait, which is answered EINTR. */
    method InterruptWait(pid: Pid)
      requires Running() && pid in procs && procs[pid].wait.Some?
      modifies this`procs
      ensures Running() && Now() == Put(old(Now()), pid, old(procs)[pid].(wait := None))
    {
      AliveWhoWaits(Now(), pid);
      WaitKeepsTree(Now(), pid, None, {});
      procs := procs[pid := procs[pid].(wait := None)];
    }

    lemma AliveWhoWaits(t: Table, pid: Pid)
      requires Inv(t) && pid in t.procs && t.procs[pid].wait.Some?
      ensures !t.procs[pid].zombie
    {
      assert Placed(t, {}, pid);
    }

    /** A child of parent, or of the kernel; setpg is the group it is to be put in, 0 for its
        own, and spawn is taken to be atomic. */
    method Spawn(parent: Option<Pid>, setpg: Option<nat>) returns (pid: Pid)
      requires Running() && (parent.Some? ==> parent.value in procs && !procs[parent.value].zombie)
      modifies this`procs, this`next
      ensures Running() && pid == old(next) && next == pid + 1 && pid !in old(procs)
      ensures procs.Keys == old(procs).Keys + {pid} && reports == old(reports)
      ensures procs[pid] == Pcb(if parent.Some? then parent.value else 0, procs[pid].pgid, false, 0, [], None)
      ensures procs[pid].pgid == if setpg.Some? then if setpg.value > 0 then setpg.value else pid
                                 else if parent.Some? then old(procs)[parent.value].pgid else pid
      ensures forall p :: p in old(procs) ==>
        procs[p] == if parent == Some(p) then old(procs)[p].(children := old(procs)[p].children + [pid]) else old(procs)[p]
    {
      hide Inv;
      NextIsNew(Now());
      pid := next;
      var pgid := if setpg.Some? then if setpg.value > 0 then setpg.value else pid
                  else if parent.Some? then procs[parent.value].pgid else pid;
      var ppid := if parent.Some? then parent.value else 0;
      Spawned(Now(), ppid, pgid);
      ghost var after := WithChild(Now(), ppid, pgid);
      next := next + 1;
      procs := procs[pid := Pcb(ppid, pgid, false, 0, [], None)];
      if parent.Some? {
        procs := procs[ppid := procs[ppid].(children := procs[ppid].children + [pid])];
      }
      assert Now() == after;
    }

    /** SETPGID of the caller or one of its children; sameSession says whether they are in
        one session. */
    method SetPgid(caller: Pid, pid: Pid, pgid: nat, sameSession: bool) returns (ok: bool)
      requires Running() && caller in procs && !procs[caller].zombie
      modifies this`procs
      ensures ok <==> var t := if pid == 0 then caller else pid;
        t in old(procs) && !old(procs)[t].zombie && (t == caller || t in old(procs)[caller].children) && sameSession
      ensures !ok ==> procs == old(procs)
      ensures ok ==> var t := if pid == 0 then caller else pid;
        && t in old(procs) && procs == old(procs)[t := old(procs)[t].(pgid := if pgid > 0 then pgid else t)]
        && Tree(Now(), {}) && ReportedOnce(Now())
        && !halted && (Inv(Now()) <==> !(old(procs)[t].wait == Some(0) && ZombieChildIn(old(Now()), t, procs[t].pgid)))
    {
      var t := if pid == 0 then caller else pid;
      if t !in procs || procs[t].zombie { return false; }
      if t != caller && t !in procs[caller].children { return false; }
      if !sameSession { return false; }
      Regrouped(Now(), t, if pgid > 0 then pgid else t);
      procs := procs[t := procs[t].(pgid := if pgid > 0 then pgid else t)];
      ok := true;
    }
  }

  ghost predicate ZombieChildIn(t: Table, p: Pid, pgid: nat) {
    exists c :: c in t.procs && t.procs[c].zombie && t.procs[c].ppid == p && t.procs[c].pgid == pgid
  }

  /** Regrouping a process makes it miss a child exactly when it waits for its own group and
      has a zombie child in the new one. */
  lemma Regrouped(t: Table, p: Pid, pgid: nat)
    requires Inv(t) && p in t.procs && !t.procs[p].zombie
    ensures var r := Put(t, p, t.procs[p].(pgid := pgid));
            && Tree(r, {}) && ReportedOnce(r)
            && (NobodyMissed(r) <==> !(t.procs[p].wait == Some(0) && ZombieChildIn(t, p, pgid)))
  {
    var r := Put(t, p, t.procs[p].(pgid := pgid));
    forall x | x in r.procs ensures Placed(r, {}, x) {
      assert Placed(t, {}, x);
    }
    forall c | c in t.procs && t.procs[c].zombie && t.procs[c].ppid == p
      ensures c in r.procs && r.procs[c] == t.procs[c]
    {
    }
  }

  /** Regrouping a process that waits for its own group can make it miss a zombie child: a
      shell with a child in its group and one outside waits for its group; the other child
      exits, and the shell is moved to that child's group. */
  method RegroupingMisses() returns (k: Processes)
    ensures fresh(k) && !k.halted && 2 in k.procs && 3 in k.procs
    ensures Tree(k.Now(), {}) && k.procs[3].zombie && k.procs[3].ppid == 2 && k.procs[3].pgid == 3
    ensures k.procs[2].wait == Some(0) && k.procs[2].pgid == 3 && !NobodyMissed(k.Now())
  {
    hide Inv, Tree, Placed, NobodyMissed, ReportedOnce, Gone;
    k := new Processes();
    InitIn(k.Now());
    var shell := k.Spawn(Some(Init), Some(0));
    var other := k.Spawn(Some(shell), Some(0));
    var job := k.Spawn(Some(shell), None);
    var kids := k.procs[shell].children;
    assert kids == [other, job];
    assert Wanted(k.Now(), shell, 0, kids[1]);
    var w := k.Wait(shell, 0, false);
    assert w == Parked;
    ghost var before := k.Now();
    k.Exit(other, 7);
    OtherStays(before, k.Now(), shell, other, 7);
    ListedByParent(k.Now(), shell);
    ghost var t := k.Now();
    var ok := k.SetPgid(Init, shell, other, true);
    assert ZombieChildIn(t, shell, other);
    MissedOnly(k.Now());
  }

  lemma MissedOnly(t: Table)
    requires Tree(t, {}) && ReportedOnce(t)
    ensures Inv(t) <==> NobodyMissed(t)
  {
  }

  lemma InitIn(t: Table)
    requires Inv(t)
    ensures Init in t.procs && !t.procs[Init].zombie && t.procs[Init].ppid == 0
  {
  }

  lemma ListedByParent(t: Table, p: Pid)
    requires Inv(t) && p in t.procs
    ensures Init in t.procs && !t.procs[Init].zombie
    ensures t.procs[p].ppid != 0 ==> t.procs[p].ppid in t.procs && p in t.procs[t.procs[p].ppid].children
  {
    assert Placed(t, {}, p);
  }

  lemma OtherStays(a: Table, t: Table, q: Pid, pid: Pid, status: Status)
    requires Gone(a, t, pid, status) && q in a.procs && q != pid && q != Init && !a.procs[q].zombie
    requires a.procs[pid].ppid == q && q != 0 && a.procs[q].wait.Some? && !Matches(a.procs[q].wait.value, a.procs[q], pid, a.procs[pid])
    ensures pid in t.procs && t.procs[pid].zombie && t.procs[pid].ppid == q && t.procs[pid].pgid == a.procs[pid].pgid
    ensures q in t.procs && !t.procs[q].zombie && t.procs[q].wait == a.procs[q].wait
    ensures t.procs[q].ppid == if a.procs[q].ppid == pid then Init else a.procs[q].ppid
  {
  }

  function WithChild(t: Table, ppid: Pid, pgid: nat): Table {
    var a := Put(t, t.next, Pcb(ppid, pgid, false, 0, [], None)).(next := t.next + 1);
    if ppid == 0 || ppid !in t.procs then a
    else Put(a, ppid, t.procs[ppid].(children := t.procs[ppid].children + [t.next]))
  }

  lemma NextIsNew(t: Table)
    requires Inv(t)
    ensures t.next !in t.procs && 0 !in t.procs && 0 < t.next
  {
    assert t.next in t.procs ==> Placed(t, {}, t.next);
    assert 0 in t.procs ==> Placed(t, {}, 0);
    assert Placed(t, {}, Init);
  }

  lemma SpawnKeepsPlaced(t: Table, ppid: Pid, pgid: nat, p: Pid)
    requires Tree(t, {}) && t.next !in t.procs && 0 !in t.procs && p in t.procs
    requires ppid == 0 || (ppid in t.procs && !t.procs[ppid].zombie)
    ensures Placed(WithChild(t, ppid, pgid), {}, p)
  {
    assert Placed(t, {}, p);
    if t.procs[p].ppid != 0 { assert Placed(t, {}, t.procs[p].ppid); }
    assert forall i :: 0 <= i < |t.procs[p].children| ==> t.procs[p].children[i] in t.procs[p].children;
  }

  lemma SpawnedTree(t: Table, ppid: Pid, pgid: nat)
    requires Tree(t, {}) && t.next !in t.procs && 0 !in t.procs && 0 < t.next
    requires ppid == 0 || (ppid in t.procs && !t.procs[ppid].zombie)
    ensures Tree(WithChild(t, ppid, pgid), {})
  {
    var r := WithChild(t, ppid, pgid);
    if ppid != 0 { assert Placed(t, {}, ppid); }
    forall p | p in r.procs ensures Placed(r, {}, p) {
      if p != t.next { SpawnKeepsPlaced(t, ppid, pgid, p); }
    }
  }

  lemma Spawned(t: Table, ppid: Pid, pgid: nat)
    requires Inv(t) && (ppid == 0 || (ppid in t.procs && !t.procs[ppid].zombie))
    ensures Inv(WithChild(t, ppid, pgid))
  {
    hide Tree, Placed;
    NextIsNew(t);
    SpawnedTree(t, ppid, pgid);
  }
}
