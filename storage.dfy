/**
 * The in-memory store of server/storage.ts: four id-keyed tables with their
 * own sequential id counters, filtered lookups, and the per-project view
 * with its summary.
 */
module Storage {
  import opened Options
  import opened Text

  datatype Worker = Worker(id: int, projectId: int, name: string, ssn: string, wageType: string, wageAmount: int)
  datatype InsertWorker = InsertWorker(projectId: int, name: string, ssn: string, wageType: string, wageAmount: int)

  datatype Project = Project(id: int, name: string, startDate: string, endDate: string, fileName: string)
  datatype InsertProject = InsertProject(name: string, startDate: string, endDate: string, fileName: string)

  datatype WorkHour = WorkHour(id: int, workerId: int, projectId: int, date: string, hours: real)
  datatype InsertWorkHour = InsertWorkHour(workerId: int, projectId: int, date: string, hours: real)

  datatype CalculationResult = CalculationResult(id: int, workerId: int, projectId: int, totalHours: real, totalWage: real)
  datatype InsertCalculationResult = InsertCalculationResult(workerId: int, projectId: int, totalHours: real, totalWage: real)

  /** A worker with its day-of-month hours and its wage, as the project view lists it. */
  datatype WorkerWithHours = WorkerWithHours(worker: Worker, workHours: map<string, real>, totalWage: real)
  datatype Summary = Summary(totalEmployees: nat, totalHours: real, totalWages: real)
  datatype ProjectWithWorkers = ProjectWithWorkers(project: Project, workers: seq<WorkerWithHours>, summary: Summary)

  // The fields the lookups filter on.
  function WorkerProject(w: Worker): int { w.projectId }
  function HourWorker(h: WorkHour): int { h.workerId }
  function HourProject(h: WorkHour): int { h.projectId }
  function ResultWorker(r: CalculationResult): int { r.workerId }
  function ResultProject(r: CalculationResult): int { r.projectId }

  /** The ids handed out so far: exactly 1 .. next-1. */
  ghost predicate Dense<T>(m: map<int, T>, next: int)
  {
    next >= 1 && forall k :: k in m <==> 1 <= k < next
  }

  /**
   * `Array.from(map.values())`: a `Map` yields its values in insertion
   * order, which for sequential ids is ascending id order.
   */
  function InOrder<T>(m: map<int, T>, next: int): (s: seq<T>)
    requires Dense(m, next)
    ensures |s| == next - 1
    ensures forall i :: 0 <= i < |s| ==> s[i] == m[i + 1]
    decreases next
  {
    if next == 1 then [] else InOrder(m - {next - 1}, next - 1) + [m[next - 1]]
  }

  /** The listing holds exactly the stored values. */
  lemma InOrderHolds<T>(m: map<int, T>, next: int)
    requires Dense(m, next)
    ensures forall k :: k in m ==> m[k] in InOrder(m, next)
    ensures forall x :: x in InOrder(m, next) ==> exists k :: k in m && m[k] == x
  {
    var s := InOrder(m, next);
    forall k | k in m ensures m[k] in s {
      assert s[k - 1] == m[k];
    }
    forall x | x in s ensures exists k :: k in m && m[k] == x {
      var i :| 0 <= i < |s| && s[i] == x;
      assert m[i + 1] == x;
    }
  }

  /** Storing under the next id appends to the listing. */
  lemma InOrderExtend<T>(m: map<int, T>, next: int, x: T)
    requires Dense(m, next)
    ensures Dense(m[next := x], next + 1)
    ensures InOrder(m[next := x], next + 1) == InOrder(m, next) + [x]
  {
    var s := InOrder(m[next := x], next + 1);
    var t := InOrder(m, next) + [x];
    assert |s| == |t|;
    forall i | 0 <= i < |s| ensures s[i] == t[i] {
    }
  }

  /** `array.filter(e => key(e) === k)`. */
  function Matching<T(!new)>(s: seq<T>, key: T -> int, k: int): (r: seq<T>)
    ensures |r| <= |s|
    ensures forall x :: x in r <==> x in s && key(x) == k
  {
    if s == [] then []
    else
      assert forall x :: x in s <==> x == s[0] || x in s[1..];
      (if key(s[0]) == k then [s[0]] else []) + Matching(s[1..], key, k)
  }

  /** Filtering keeps the order: it distributes over concatenation. */
  lemma {:induction false} MatchingAppend<T(!new)>(s: seq<T>, t: seq<T>, key: T -> int, k: int)
    ensures Matching(s + t, key, k) == Matching(s, key, k) + Matching(t, key, k)
  {
    if s == [] {
      assert s + t == t;
    } else {
      assert (s + t)[0] == s[0];
      assert (s + t)[1..] == s[1..] + t;
      MatchingAppend(s[1..], t, key, k);
    }
  }

  /** Position of the first element with `key(e) == k`, or `|s|` if there is none. */
  function FirstIndex<T>(s: seq<T>, key: T -> int, k: int): (i: nat)
    ensures i <= |s|
    ensures forall j :: 0 <= j < i ==> key(s[j]) != k
    ensures i < |s| ==> key(s[i]) == k
  {
    if s == [] || key(s[0]) == k then 0 else 1 + FirstIndex(s[1..], key, k)
  }

  /** `array.find(e => key(e) === k)`. */
  function First<T>(s: seq<T>, key: T -> int, k: int): (r: Option<T>)
    ensures r.None? <==> forall j :: 0 <= j < |s| ==> key(s[j]) != k
    ensures r.Some? ==> r.value == s[FirstIndex(s, key, k)] && key(r.value) == k
  {
    var i := FirstIndex(s, key, k);
    if i < |s| then Some(s[i]) else None
  }

  /** `date.split('-')[2]` used as an object key: `"undefined"` when there is no third piece. */
  function DayKey(date: string): string
  {
    var parts := Split(date, '-');
    if |parts| >= 3 then parts[2] else "undefined"
  }

  /** For a `YYYY-MM-DD` date the key is the `DD` text. */
  lemma DayKeyOfDate(y: string, m: string, d: string)
    requires '-' !in y && '-' !in m && '-' !in d
    ensures DayKey(y + "-" + m + "-" + d) == d
  {
    assert Join([y, m, d], '-') == y + "-" + m + "-" + d by {
      assert Join([m, d], '-') == m + "-" + d;
      assert [y, m, d][1..] == [m, d];
    }
    SplitJoin([y, m, d], '-');
  }

  /** The day -> hours record built from a worker's work hours; later entries overwrite earlier ones. */
  function HoursMap(whs: seq<WorkHour>): map<string, real>
  {
    if whs == [] then map[]
    else
      var last := whs[|whs| - 1];
      HoursMap(whs[..|whs| - 1])[DayKey(last.date) := last.hours]
  }

  /** The record has a key for exactly the days some work-hour record names. */
  lemma {:induction false} HoursMapKeys(whs: seq<WorkHour>, key: string)
    ensures key in HoursMap(whs) <==> exists i :: 0 <= i < |whs| && DayKey(whs[i].date) == key
  {
    if whs != [] {
      var init := whs[..|whs| - 1];
      HoursMapKeys(init, key);
      if key in HoursMap(init) {
        var i :| 0 <= i < |init| && DayKey(init[i].date) == key;
        assert whs[i] == init[i];
      }
      if exists i :: 0 <= i < |whs| && DayKey(whs[i].date) == key {
        var i :| 0 <= i < |whs| && DayKey(whs[i].date) == key;
        if i < |init| {
          assert init[i] == whs[i];
        }
      }
    }
  }

  /** The hours kept for a day are those of the last record for that day. */
  lemma {:induction false} HoursMapLastWins(whs: seq<WorkHour>, i: int)
    requires 0 <= i < |whs|
    requires forall j :: i < j < |whs| ==> DayKey(whs[j].date) != DayKey(whs[i].date)
    ensures DayKey(whs[i].date) in HoursMap(whs) && HoursMap(whs)[DayKey(whs[i].date)] == whs[i].hours
  {
    if i < |whs| - 1 {
      var init := whs[..|whs| - 1];
      assert init[i] == whs[i];
      HoursMapLastWins(init, i);
    }
  }

  /** The `workHoursMap` loop of `getProjectWithWorkers`: one assignment per record, in order. */
  method CollectDayHours(workHours: seq<WorkHour>) returns (workHoursMap: map<string, real>)
    ensures workHoursMap == HoursMap(workHours)
  {
    workHoursMap := map[];
    var j := 0;
    while j < |workHours|
      invariant 0 <= j <= |workHours|
      invariant workHoursMap == HoursMap(workHours[..j])
    {
      assert workHours[..j + 1][..j] == workHours[..j];
      workHoursMap := workHoursMap[DayKey(workHours[j].date) := workHours[j].hours];
      j := j + 1;
    }
    assert workHours[..j] == workHours;
  }

  function WageOf(r: Option<CalculationResult>): real
  {
    if r.Some? then r.value.totalWage else 0.0
  }

  function HoursOf(r: Option<CalculationResult>): real
  {
    if r.Some? then r.value.totalHours else 0.0
  }

  /** One worker's line of the project view, from the stored work hours and results. */
  function EntryOf(w: Worker, hours: seq<WorkHour>, results: seq<CalculationResult>): (e: WorkerWithHours)
    ensures e.worker == w
    ensures First(results, ResultWorker, w.id).None? ==> e.totalWage == 0.0
    ensures First(results, ResultWorker, w.id).Some? ==> e.totalWage == First(results, ResultWorker, w.id).value.totalWage
    ensures e.workHours == HoursMap(Matching(hours, HourWorker, w.id))
  {
    var mine := Matching(hours, HourWorker, w.id);
    WorkerWithHours(w, HoursMap(mine), WageOf(First(results, ResultWorker, w.id)))
  }

  function Entries(ws: seq<Worker>, hours: seq<WorkHour>, results: seq<CalculationResult>): (es: seq<WorkerWithHours>)
    ensures |es| == |ws|
  {
    if ws == [] then []
    else Entries(ws[..|ws| - 1], hours, results) + [EntryOf(ws[|ws| - 1], hours, results)]
  }

  /** The view lists each worker once, in the order given. */
  lemma {:induction false} EntriesAt(ws: seq<Worker>, hours: seq<WorkHour>, results: seq<CalculationResult>, i: int)
    requires 0 <= i < |ws|
    ensures Entries(ws, hours, results)[i] == EntryOf(ws[i], hours, results)
    ensures Entries(ws, hours, results)[i].worker == ws[i]
  {
    if i < |ws| - 1 {
      EntriesAt(ws[..|ws| - 1], hours, results, i);
    }
  }

  /** Sum of the listed wages. */
  function TotalWages(es: seq<WorkerWithHours>): real
  {
    if es == [] then 0.0 else TotalWages(es[..|es| - 1]) + es[|es| - 1].totalWage
  }

  /** Sum over workers of their first result's hours, 0 for a worker without one. */
  function TotalHours(ws: seq<Worker>, results: seq<CalculationResult>): real
  {
    if ws == [] then 0.0
    else TotalHours(ws[..|ws| - 1], results) + HoursOf(First(results, ResultWorker, ws[|ws| - 1].id))
  }

  /** `getProjectWithWorkers` for a known project, given its workers in order. */
  function ProjectView(p: Project, ws: seq<Worker>, hours: seq<WorkHour>, results: seq<CalculationResult>): (v: ProjectWithWorkers)
    ensures v.project == p
    ensures v.summary.totalEmployees == |v.workers| == |ws|
    ensures v.summary.totalWages == TotalWages(v.workers)
    ensures v.summary.totalHours == TotalHours(ws, results)
  {
    var es := Entries(ws, hours, results);
    ProjectWithWorkers(p, es, Summary(|ws|, TotalHours(ws, results), TotalWages(es)))
  }

  /** With no result for any of its workers, a project's totals are both 0. */
  lemma {:induction false} NoResultsNoTotals(ws: seq<Worker>, hours: seq<WorkHour>, results: seq<CalculationResult>)
    requires forall r :: r in results ==> forall w :: w in ws ==> r.workerId != w.id
    ensures TotalWages(Entries(ws, hours, results)) == 0.0
    ensures TotalHours(ws, results) == 0.0
  {
    if ws != [] {
      var init := ws[..|ws| - 1];
      var es := Entries(ws, hours, results);
      assert es[..|es| - 1] == Entries(init, hours, results);
      NoResultsNoTotals(init, hours, results);
      var w := ws[|ws| - 1];
      assert First(results, ResultWorker, w.id).None? by {
        forall j | 0 <= j < |results| ensures ResultWorker(results[j]) != w.id {
          assert results[j] in results;
        }
      }
    }
  }

  /** Non-negative results give non-negative totals. */
  lemma {:induction false} TotalsNonNegative(ws: seq<Worker>, hours: seq<WorkHour>, results: seq<CalculationResult>)
    requires forall r :: r in results ==> r.totalWage >= 0.0 && r.totalHours >= 0.0
    ensures TotalWages(Entries(ws, hours, results)) >= 0.0
    ensures TotalHours(ws, results) >= 0.0
  {
    if ws != [] {
      var init := ws[..|ws| - 1];
      var es := Entries(ws, hours, results);
      assert es[..|es| - 1] == Entries(init, hours, results);
      TotalsNonNegative(init, hours, results);
      var f := First(results, ResultWorker, ws[|ws| - 1].id);
      assert f.Some? ==> f.value in results;
    }
  }

  /** One more worker appends its entry and adds its result's hours and wage to the totals. */
  lemma ProjectViewStep(ws: seq<Worker>, hours: seq<WorkHour>, results: seq<CalculationResult>, i: int)
    requires 0 <= i < |ws|
    ensures Entries(ws[..i + 1], hours, results) == Entries(ws[..i], hours, results) + [EntryOf(ws[i], hours, results)]
    ensures TotalHours(ws[..i + 1], results) == TotalHours(ws[..i], results) + HoursOf(First(results, ResultWorker, ws[i].id))
    ensures TotalWages(Entries(ws[..i + 1], hours, results))
              == TotalWages(Entries(ws[..i], hours, results)) + WageOf(First(results, ResultWorker, ws[i].id))
  {
    assert ws[..i + 1][..i] == ws[..i];
    var es := Entries(ws[..i + 1], hours, results);
    assert es[..|es| - 1] == Entries(ws[..i], hours, results);
  }

  /**
   * One pass of the worker loop of `getProjectWithWorkers`: the worker's
   * day -> hours record, and its wage and hours from its first result (0
   * without one).
   */
  method VisitWorker(w: Worker, hours: seq<WorkHour>, results: seq<CalculationResult>)
    returns (entry: WorkerWithHours, workerTotalHours: real)
    ensures entry == EntryOf(w, hours, results)
    ensures entry.totalWage == WageOf(First(results, ResultWorker, w.id))
    ensures workerTotalHours == HoursOf(First(results, ResultWorker, w.id))
  {
    var workHours := Matching(hours, HourWorker, w.id);
    var calculationResult := First(results, ResultWorker, w.id);
    var workHoursMap := CollectDayHours(workHours);
    var totalWage := if calculationResult.Some? then calculationResult.value.totalWage else 0.0;
    workerTotalHours := if calculationResult.Some? then calculationResult.value.totalHours else 0.0;
    entry := WorkerWithHours(w, workHoursMap, totalWage);
  }

  /**
   * The worker loop of `getProjectWithWorkers`. Inside it the source calls
   * `getWorkHoursByWorkerId` and `getCalculationResultByWorkerId`, which
   * only filter the stored listings; here they are those filters, applied
   * to the listings passed in.
   */
  method BuildProjectView(project: Project, ws: seq<Worker>, hours: seq<WorkHour>, results: seq<CalculationResult>)
    returns (view: ProjectWithWorkers)
    ensures view == ProjectView(project, ws, hours, results)
  {
    var workersWithHours: seq<WorkerWithHours> := [];
    var totalWages := 0.0;
    var totalHours := 0.0;
    var i := 0;
    while i < |ws|
      invariant 0 <= i <= |ws|
      invariant workersWithHours == Entries(ws[..i], hours, results)
      invariant totalWages == TotalWages(workersWithHours)
      invariant totalHours == TotalHours(ws[..i], results)
    {
      ProjectViewStep(ws, hours, results, i);
      var entry, workerTotalHours := VisitWorker(ws[i], hours, results);
      workersWithHours := workersWithHours + [entry];
      totalWages := totalWages + entry.totalWage;
      totalHours := totalHours + workerTotalHours;
      i := i + 1;
    }
    assert ws[..i] == ws;
    view := ProjectWithWorkers(project, workersWithHours, Summary(|ws|, totalHours, totalWages));
  }

  class MemStorage {
    var workers: map<int, Worker>
    var projects: map<int, Project>
    var workHours: map<int, WorkHour>
    var calculationResults: map<int, CalculationResult>

    // The next id each table hands out.
    var workerId: int
    var projectId: int
    var workHourId: int
    var calculationResultId: int

    /** Every table holds ids 1 .. counter-1, each under its own id. */
    ghost predicate Valid()
      reads this
    {
      && Dense(workers, workerId) && (forall k :: k in workers ==> workers[k].id == k)
      && Dense(projects, projectId) && (forall k :: k in projects ==> projects[k].id == k)
      && Dense(workHours, workHourId) && (forall k :: k in workHours ==> workHours[k].id == k)
      && Dense(calculationResults, calculationResultId)
      && (forall k :: k in calculationResults ==> calculationResults[k].id == k)
    }

    ghost function AllWorkers(): seq<Worker> reads this requires Valid() { InOrder(workers, workerId) }
    ghost function AllProjects(): seq<Project> reads this requires Valid() { InOrder(projects, projectId) }
    ghost function AllWorkHours(): seq<WorkHour> reads this requires Valid() { InOrder(workHours, workHourId) }
    ghost function AllResults(): seq<CalculationResult> reads this requires Valid() { InOrder(calculationResults, calculationResultId) }

    /** The view `getProjectWithWorkers` gives of a stored project. */
    ghost function ViewOf(p: Project): ProjectWithWorkers
      reads this
      requires Valid()
    {
      ProjectView(p, Matching(AllWorkers(), WorkerProject, p.id), AllWorkHours(), AllResults())
    }

    constructor ()
      ensures Valid()
      ensures workers == map[] && projects == map[] && workHours == map[] && calculationResults == map[]
      ensures workerId == 1 && projectId == 1 && workHourId == 1 && calculationResultId == 1
    {
      workers, projects, workHours, calculationResults := map[], map[], map[], map[];
      workerId, projectId, workHourId, calculationResultId := 1, 1, 1, 1;
    }

    method GetWorker(id: int) returns (r: Option<Worker>)
      requires Valid()
      ensures r.Some? <==> 1 <= id < workerId
      ensures r.Some? ==> r.value == workers[id] && r.value.id == id
    {
      r := if id in workers then Some(workers[id]) else None;
    }

    method CreateWorker(w: InsertWorker) returns (r: Worker)
      requires Valid()
      modifies this
      ensures Valid()
      ensures r == Worker(old(workerId), w.projectId, w.name, w.ssn, w.wageType, w.wageAmount)
      ensures old(workerId) !in old(workers) && workers == old(workers)[r.id := r]
      ensures workerId == old(workerId) + 1
      ensures AllWorkers() == old(AllWorkers()) + [r]
      ensures projects == old(projects) && workHours == old(workHours) && calculationResults == old(calculationResults)
      ensures projectId == old(projectId) && workHourId == old(workHourId) && calculationResultId == old(calculationResultId)
    {
      InOrderExtend(workers, workerId, Worker(workerId, w.projectId, w.name, w.ssn, w.wageType, w.wageAmount));
      var id := workerId;
      workerId := workerId + 1;
      r := Worker(id, w.projectId, w.name, w.ssn, w.wageType, w.wageAmount);
      workers := workers[id := r];
    }

    method GetWorkersByProjectId(pid: int) returns (r: seq<Worker>)
      requires Valid()
      ensures r == Matching(AllWorkers(), WorkerProject, pid)
      ensures forall k :: k in workers && workers[k].projectId == pid ==> workers[k] in r
      ensures forall w :: w in r ==> w.id in workers && workers[w.id] == w && w.projectId == pid
    {
      InOrderHolds(workers, workerId);
      r := Matching(InOrder(workers, workerId), WorkerProject, pid);
    }

    method GetProject(id: int) returns (r: Option<Project>)
      requires Valid()
      ensures r.Some? <==> 1 <= id < projectId
      ensures r.Some? ==> r.value == projects[id] && r.value.id == id
    {
      r := if id in projects then Some(projects[id]) else None;
    }

    method CreateProject(p: InsertProject) returns (r: Project)
      requires Valid()
      modifies this
      ensures Valid()
      ensures r == Project(old(projectId), p.name, p.startDate, p.endDate, p.fileName)
      ensures old(projectId) !in old(projects) && projects == old(projects)[r.id := r]
      ensures projectId == old(projectId) + 1
      ensures AllProjects() == old(AllProjects()) + [r]
      ensures workers == old(workers) && workHours == old(workHours) && calculationResults == old(calculationResults)
      ensures workerId == old(workerId) && workHourId == old(workHourId) && calculationResultId == old(calculationResultId)
    {
      InOrderExtend(projects, projectId, Project(projectId, p.name, p.startDate, p.endDate, p.fileName));
      var id := projectId;
      projectId := projectId + 1;
      r := Project(id, p.name, p.startDate, p.endDate, p.fileName);
      projects := projects[id := r];
    }

    method GetAllProjects() returns (r: seq<Project>)
      requires Valid()
      ensures r == AllProjects()
      ensures |r| == projectId - 1 && forall i :: 0 <= i < |r| ==> r[i].id == i + 1
    {
      r := InOrder(projects, projectId);
    }

    method CreateWorkHour(h: InsertWorkHour) returns (r: WorkHour)
      requires Valid()
      modifies this
      ensures Valid()
      ensures r == WorkHour(old(workHourId), h.workerId, h.projectId, h.date, h.hours)
      ensures old(workHourId) !in old(workHours) && workHours == old(workHours)[r.id := r]
      ensures workHourId == old(workHourId) + 1
      ensures AllWorkHours() == old(AllWorkHours()) + [r]
      ensures workers == old(workers) && projects == old(projects) && calculationResults == old(calculationResults)
      ensures workerId == old(workerId) && projectId == old(projectId) && calculationResultId == old(calculationResultId)
    {
      InOrderExtend(workHours, workHourId, WorkHour(workHourId, h.workerId, h.projectId, h.date, h.hours));
      var id := workHourId;
      workHourId := workHourId + 1;
      r := WorkHour(id, h.workerId, h.projectId, h.date, h.hours);
      workHours := workHours[id := r];
    }

    method GetWorkHoursByWorkerId(wid: int) returns (r: seq<WorkHour>)
      requires Valid()
      ensures r == Matching(AllWorkHours(), HourWorker, wid)
      ensures forall k :: k in workHours && workHours[k].workerId == wid ==> workHours[k] in r
      ensures forall h :: h in r ==> h.id in workHours && workHours[h.id] == h && h.workerId == wid
    {
      InOrderHolds(workHours, workHourId);
      r := Matching(InOrder(workHours, workHourId), HourWorker, wid);
    }

    method GetWorkHoursByProjectId(pid: int) returns (r: seq<WorkHour>)
      requires Valid()
      ensures r == Matching(AllWorkHours(), HourProject, pid)
      ensures forall k :: k in workHours && workHours[k].projectId == pid ==> workHours[k] in r
      ensures forall h :: h in r ==> h.id in workHours && workHours[h.id] == h && h.projectId == pid
    {
      InOrderHolds(workHours, workHourId);
      r := Matching(InOrder(workHours, workHourId), HourProject, pid);
    }

    method CreateCalculationResult(c: InsertCalculationResult) returns (r: CalculationResult)
      requires Valid()
      modifies this
      ensures Valid()
      ensures r == CalculationResult(old(calculationResultId), c.workerId, c.projectId, c.totalHours, c.totalWage)
      ensures old(calculationResultId) !in old(calculationResults)
      ensures calculationResults == old(calculationResults)[r.id := r]
      ensures calculationResultId == old(calculationResultId) + 1
      ensures AllResults() == old(AllResults()) + [r]
      ensures workers == old(workers) && projects == old(projects) && workHours == old(workHours)
      ensures workerId == old(workerId) && projectId == old(projectId) && workHourId == old(workHourId)
    {
      InOrderExtend(calculationResults, calculationResultId,
        CalculationResult(calculationResultId, c.workerId, c.projectId, c.totalHours, c.totalWage));
      var id := calculationResultId;
      calculationResultId := calculationResultId + 1;
      r := CalculationResult(id, c.workerId, c.projectId, c.totalHours, c.totalWage);
      calculationResults := calculationResults[id := r];
    }

    /** The matching result with the smallest id, that is the first one stored. */
    method GetCalculationResultByWorkerId(wid: int) returns (r: Option<CalculationResult>)
      requires Valid()
      ensures r == First(AllResults(), ResultWorker, wid)
      ensures r.None? <==> forall k :: k in calculationResults ==> calculationResults[k].workerId != wid
      ensures r.Some? ==> r.value.id in calculationResults && calculationResults[r.value.id] == r.value
      ensures r.Some? ==> r.value.workerId == wid
      ensures r.Some? ==> forall k :: 1 <= k < r.value.id ==> calculationResults[k].workerId != wid
    {
      var all := InOrder(calculationResults, calculationResultId);
      r := First(all, ResultWorker, wid);
      var i := FirstIndex(all, ResultWorker, wid);
      if r.None? {
        forall k | k in calculationResults ensures calculationResults[k].workerId != wid {
          assert all[k - 1] == calculationResults[k];
        }
      } else {
        assert all[i] == calculationResults[i + 1];
        forall k | 1 <= k < r.value.id ensures calculationResults[k].workerId != wid {
          assert all[k - 1] == calculationResults[k];
        }
      }
    }

    method GetCalculationResultsByProjectId(pid: int) returns (r: seq<CalculationResult>)
      requires Valid()
      ensures r == Matching(AllResults(), ResultProject, pid)
      ensures forall k :: k in calculationResults && calculationResults[k].projectId == pid ==> calculationResults[k] in r
      ensures forall c :: c in r ==> c.id in calculationResults && calculationResults[c.id] == c && c.projectId == pid
    {
      InOrderHolds(calculationResults, calculationResultId);
      r := Matching(InOrder(calculationResults, calculationResultId), ResultProject, pid);
    }

    /**
     * `getProjectWithWorkers`: nothing for an unknown project; otherwise its
     * workers in order, each with its day -> hours record and its wage, and
     * the summary totals.
     */
    method GetProjectWithWorkers(pid: int) returns (r: Option<ProjectWithWorkers>)
      requires Valid()
      ensures r.None? <==> pid !in projects
      ensures r.Some? ==> r.value == ViewOf(projects[pid])
    {
      var project := GetProject(pid);
      if project.None? {
        return None;
      }
      var ws := GetWorkersByProjectId(pid);
      var hours := InOrder(workHours, workHourId);
      var results := InOrder(calculationResults, calculationResultId);
      var view := BuildProjectView(project.value, ws, hours, results);
      r := Some(view);
    }

    /** `getAllProjectsWithWorkers`: one view per stored project, in insertion order. */
    method GetAllProjectsWithWorkers() returns (r: seq<ProjectWithWorkers>)
      requires Valid()
      ensures |r| == |AllProjects()|
      ensures forall i :: 0 <= i < |r| ==> r[i] == ViewOf(AllProjects()[i]) && r[i].project.id == i + 1
    {
      var ps := GetAllProjects();
      ghost var allWorkers, hours, results := AllWorkers(), AllWorkHours(), AllResults();
      r := [];
      var i := 0;
      while i < |ps|
        invariant 0 <= i <= |ps|
        invariant |r| == i
        invariant forall j :: 0 <= j < i ==>
          r[j] == ProjectView(ps[j], Matching(allWorkers, WorkerProject, ps[j].id), hours, results)
      {
        var view := GetProjectWithWorkers(ps[i].id);
        r := r + [view.value];
        i := i + 1;
      }
    }
  }
}
