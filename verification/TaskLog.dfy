/** Following a task's log: Watch, then tasktail from the number of lines it got. */
module TaskLog {
  import opened Prelude
  import opened Tasks

  const PAGE: nat := 50
  const EMPTY_RETRIES: nat := 3

  /** An append-only log as the server answers for it: the text of each line, and for each
      log request the number of lines at that moment (None is an error); pings answers the
      status requests. */
  datatype Server = Server(line: nat -> string, lengths: seq<Option<nat>>, pings: seq<PingReply>)
  {
    /** The answer to log request r; once the answers are used up, requests fail. */
    function LengthAt(r: nat): Option<nat> {
      if r < |lengths| then lengths[r] else None
    }
  }

  /** The rows of a contiguous page, keyed by line number. */
  function Rows(line: nat -> string, lo: nat, hi: nat): (rows: map<nat, string>)
    requires lo <= hi
    ensures |rows| == hi - lo
    ensures forall n :: n in rows <==> lo <= n < hi
    ensures forall n | n in rows :: rows[n] == line(n)
    decreases hi - lo
  {
    if lo == hi then map[] else Rows(line, lo, hi - 1)[hi - 1 := line(hi - 1)]
  }

  /** Where the page that starts at lo ends in a log of length lines. */
  function PageEnd(lo: nat, length: nat): (hi: nat)
    ensures lo <= hi
  {
    if length <= lo then lo else if length < lo + PAGE then length else lo + PAGE
  }

  // ------------------------------------------------------------- coverage

  /** page lists each line number of [lo, hi) once, in some order, and no other. */
  ghost predicate IsPage(page: seq<nat>, lo: nat, hi: nat) {
    forall n: nat :: multiset(page)[n] == if lo <= n < hi then 1 else 0
  }

  /** Consecutive pages from start, page by page up to the line numbers in ends. */
  ghost predicate Paged(pages: seq<seq<nat>>, start: nat, ends: seq<nat>)
    decreases |pages|
  {
    |pages| == |ends| &&
    (pages != [] ==>
       start <= ends[0] && IsPage(pages[0], start, ends[0]) && Paged(pages[1..], ends[0], ends[1..]))
  }

  /** Where the last of those pages stops. */
  function Cursor(start: nat, ends: seq<nat>): nat {
    if ends == [] then start else ends[|ends| - 1]
  }

  function Flatten(pages: seq<seq<nat>>): seq<nat> {
    if pages == [] then [] else pages[0] + Flatten(pages[1..])
  }

  /** The texts of the given lines. */
  function Texts(line: nat -> string, numbers: seq<nat>): seq<string> {
    seq(|numbers|, i requires 0 <= i < |numbers| => line(numbers[i]))
  }

  // ------------------------------------------------------- specification

  /** Why a tail stopped. */
  datatype Stop = JobEnded | StatusError | LogError

  /** What a tail does: where each of its pages ends, the requests made, and why it stopped. */
  datatype Tail = Tail(ends: seq<nat>, logRequests: nat, pings: nat, task: TaskFields, stop: Stop)

  function TailFrom(s: Server, at: nat, logRequests: nat, pings: nat, task: TaskFields): Tail
    decreases |s.lengths| - logRequests
  {
    if pings >= |s.pings| || s.pings[pings].PingFailed? then Tail([], logRequests, pings + 1, task, StatusError)
    else
      var task' := Pinged(task, s.pings[pings]);
      if task'.status != RUNNING then Tail([], logRequests, pings + 1, task', JobEnded)
      else if s.LengthAt(logRequests).None? then Tail([], logRequests + 1, pings + 1, task', LogError)
      else
        var end := PageEnd(at, s.LengthAt(logRequests).value);
        var rest := TailFrom(s, end, logRequests + 1, pings + 1, task');
        After([end], rest)
  }

  /** A tail that already has the pages in ends behind it. */
  function After(ends: seq<nat>, rest: Tail): Tail {
    rest.(ends := ends + rest.ends)
  }

  /** The end of the first page with a line, if one comes within the given number of retries
      and before an error; and the number of log requests made by then. */
  function FirstPage(s: Server, start: nat, logRequests: nat, retries: nat): (r: (Option<nat>, nat))
    ensures r.0.Some? ==> r.0.value > start
    decreases retries
  {
    if s.LengthAt(logRequests).None? then (None, logRequests + 1)
    else
      var end := PageEnd(start, s.LengthAt(logRequests).value);
      if end > start then (Some(end), logRequests + 1)
      else if retries == 0 then (None, logRequests + 1)
      else FirstPage(s, start, logRequests + 1, retries - 1)
  }

  // ------------------------------------------------------ implementation

  class Watcher {
    const server: Server
    var logRequests: nat
    var pings: nat
    var task: TaskFields
    /** What went into the channel. */
    var texts: seq<string>
    /** The same by line number, page after page. */
    ghost var pages: seq<seq<nat>>

    constructor (server: Server, task: TaskFields)
      ensures this.server == server && this.task == task && logRequests == 0 && pings == 0 && pages == [] && Valid()
    {
      this.server, this.task, logRequests, pings, texts, pages := server, task, 0, 0, [], [];
    }

    /** The channel carried the texts of exactly those lines, in that order. */
    ghost predicate Valid()
      reads this
    {
      texts == Texts(server.line, Flatten(pages))
    }

    method Ping() returns (failed: bool)
      modifies this`pings, this`task
      ensures pings == old(pings) + 1
      ensures failed <==> old(pings) >= |server.pings| || server.pings[old(pings)].PingFailed?
      ensures task == if failed then old(task) else Pinged(old(task), server.pings[old(pings)])
    {
      failed := pings >= |server.pings| || server.pings[pings].PingFailed?;
      if !failed {
        task := Pinged(task, server.pings[pings]);
      }
      pings := pings + 1;
    }

    /** Log(start, 50): the page as a map, or an error. */
    method Log(start: nat) returns (log: Option<map<nat, string>>)
      modifies this`logRequests
      ensures logRequests == old(logRequests) + 1
      ensures var length := server.LengthAt(old(logRequests));
              log == if length.None? then None else Some(Rows(server.line, start, PageEnd(start, length.value)))
    {
      var length := server.LengthAt(logRequests);
      logRequests := logRequests + 1;
      log := if length.None? then None else Some(Rows(server.line, start, PageEnd(start, length.value)));
    }

    /** for _, ln := range log { watch <- ln }: the iteration order of a map is arbitrary. */
    method Send(log: map<nat, string>, ghost lo: nat, ghost hi: nat)
      requires Valid() && lo <= hi && log == Rows(server.line, lo, hi)
      modifies this`pages, this`texts
      ensures Valid() && exists page :: pages == old(pages) + [page] && IsPage(page, lo, hi)
    {
      hide Texts, Flatten, Rows;
      var rest := log.Keys;
      ghost var page: seq<nat> := [];
      TextsAppend(server.line, [], page);
      while rest != {}
        invariant rest <= log.Keys && pages == old(pages)
        invariant forall n: nat :: multiset(page)[n] == if n in log.Keys && n !in rest then 1 else 0
        invariant texts == old(texts) + Texts(server.line, page)
        decreases rest
      {
        var n :| n in rest;
        rest := rest - {n};
        texts := texts + [log[n]];
        TextsAppend(server.line, page, [n]);
        page := page + [n];
      }
      assert IsPage(page, lo, hi);
      FlattenAppend(pages, page);
      TextsAppend(server.line, Flatten(pages), page);
      pages := pages + [page];
    }

    /** Tails the log until the Proxmox job stops or a request fails. */
    method TaskTail(start: nat) returns (stop: Stop, ghost tailed: seq<seq<nat>>)
      requires Valid()
      modifies this
      ensures Valid()
      ensures var tail := TailFrom(server, start, old(logRequests), old(pings), old(task));
              && Tail(tail.ends, logRequests, pings, task, stop) == tail
              && pages == old(pages) + tailed && Paged(tailed, start, tail.ends)
    {
      hide Paged, IsPage, Rows, Pinged, PageEnd, After, Texts, Flatten;
      ghost var whole := TailFrom(server, start, logRequests, pings, task);
      ghost var ends: seq<nat> := [];
      BeforePages(whole);
      var at := start;
      tailed := [];
      NothingTailed(start);
      while true
        invariant Valid() && pages == old(pages) + tailed && Paged(tailed, start, ends) && at == Cursor(start, ends)
        invariant whole == After(ends, TailFrom(server, at, logRequests, pings, task))
        decreases |server.lengths| - logRequests
      {
        AfterPages(ends, TailFrom(server, at, logRequests, pings, task));
        var failed := Ping();
        if failed {
          return StatusError, tailed;
        }
        if task.status != RUNNING {
          return JobEnded, tailed;
        }
        ghost var length := server.LengthAt(logRequests);
        var log := Log(at);
        if log.None? {
          return LogError, tailed;
        }
        ghost var end := PageEnd(at, length.value);
        Send(log.value, at, end);
        ghost var page :| pages == old(pages) + tailed + [page] && IsPage(page, at, end);
        PagedAppend(tailed, page, start, ends, end);
        tailed := tailed + [page];
        ends := ends + [end];
        PageSize(server.line, at, end);
        at := at + |log.value|;
      }
    }

    /** The first request of Watch and its retries while the log has no lines. */
    method AwaitPage(start: nat) returns (log: Option<map<nat, string>>)
      modifies this`logRequests
      ensures var (end, asked) := FirstPage(server, start, old(logRequests), EMPTY_RETRIES);
              logRequests == asked && log == if end.None? then None else Some(Rows(server.line, start, end.value))
    {
      ghost var expected := FirstPage(server, start, logRequests, EMPTY_RETRIES);
      ghost var end := PageEnd(start, if server.LengthAt(logRequests).Some? then server.LengthAt(logRequests).value else 0);
      log := Log(start);
      if log.None? {
        return;
      }
      var i := 0;
      while i < EMPTY_RETRIES && |log.value| == 0
        invariant i <= EMPTY_RETRIES && log.Some? && start <= end && log.value == Rows(server.line, start, end)
        invariant expected == if end > start then (Some(end), logRequests)
                              else if i == EMPTY_RETRIES then (None, logRequests)
                              else FirstPage(server, start, logRequests, EMPTY_RETRIES - i - 1)
      {
        ghost var length := server.LengthAt(logRequests);
        log := Log(start);
        if log.None? {
          return;
        }
        end := PageEnd(start, length.value);
        i := i + 1;
      }
      if |log.value| == 0 {
        log := None;
      }
    }

    /** Watch with its goroutine run to the end; ok is false when it returns an error. */
    method Watch(start: nat) returns (ok: bool, ghost tailed: seq<seq<nat>>)
      requires Valid() && pages == []
      modifies this
      ensures Valid()
      ensures var (end, asked) := FirstPage(server, start, old(logRequests), EMPTY_RETRIES);
              && ok == end.Some?
              && (!ok ==> pages == [] && logRequests == asked && pings == old(pings) && task == old(task))
              && (ok ==>
                    var tail := TailFrom(server, end.value - start, asked, old(pings), old(task));
                    && |pages| > 0 && pages[1..] == tailed
                    && IsPage(pages[0], start, end.value) && Paged(tailed, end.value - start, tail.ends)
                    && logRequests == tail.logRequests && pings == tail.pings && task == tail.task)
    {
      hide TailFrom, FirstPage, IsPage, Paged, Texts, Flatten;
      ghost var end := FirstPage(server, start, logRequests, EMPTY_RETRIES).0;
      ok, tailed := false, [];
      var log := AwaitPage(start);
      if log.None? {
        return;
      }
      PageSize(server.line, start, end.value);
      Send(log.value, start, end.value);
      var stop;
      stop, tailed := TaskTail(|log.value|);
      ok := true;
    }
  }

  // ---------------------------------------------------------- properties

  lemma {:induction false} FlattenAppend(pages: seq<seq<nat>>, page: seq<nat>)
    ensures Flatten(pages + [page]) == Flatten(pages) + page
  {
    if pages == [] {
      assert (pages + [page])[1..] == [];
    } else {
      FlattenAppend(pages[1..], page);
      assert (pages + [page])[1..] == pages[1..] + [page];
    }
  }

  lemma TextsAppend(line: nat -> string, a: seq<nat>, b: seq<nat>)
    ensures Texts(line, a + b) == Texts(line, a) + Texts(line, b)
    ensures Texts(line, []) == [] && forall n: nat :: Texts(line, [n]) == [line(n)]
  {}

  lemma NothingTailed(start: nat)
    ensures Paged([], start, [])
  {}

  lemma BeforePages(tail: Tail)
    ensures After([], tail) == tail
  {}

  lemma AfterPages(ends: seq<nat>, tail: Tail)
    ensures tail.ends == [] ==> After(ends, tail) == tail.(ends := ends)
    ensures forall end, rest | tail == After([end], rest) :: After(ends, tail) == After(ends + [end], rest)
  {
    forall end, rest | tail == After([end], rest) ensures After(ends, tail) == After(ends + [end], rest) {
      assert ends + ([end] + rest.ends) == ends + [end] + rest.ends;
    }
  }

  lemma PageSize(line: nat -> string, lo: nat, hi: nat)
    requires lo <= hi
    ensures |Rows(line, lo, hi)| == hi - lo
  {}

  lemma {:induction false} PagedAppend(pages: seq<seq<nat>>, page: seq<nat>, start: nat, ends: seq<nat>, end: nat)
    requires Paged(pages, start, ends) && Cursor(start, ends) <= end && IsPage(page, Cursor(start, ends), end)
    ensures Paged(pages + [page], start, ends + [end])
    decreases |pages|
  {
    if pages == [] {
      assert (pages + [page])[1..] == [] && (ends + [end])[1..] == [];
      NothingTailed(end);
    } else {
      PagedAppend(pages[1..], page, ends[0], ends[1..], end);
      assert (pages + [page])[1..] == pages[1..] + [page] && (ends + [end])[1..] == ends[1..] + [end];
    }
  }

  /** Consecutive pages deliver each of their lines exactly once and no other line. */
  lemma {:induction false} PagesDeliverOnce(pages: seq<seq<nat>>, start: nat, ends: seq<nat>, n: nat)
    requires Paged(pages, start, ends)
    ensures start <= Cursor(start, ends)
    ensures multiset(Flatten(pages))[n] == if start <= n < Cursor(start, ends) then 1 else 0
    decreases |pages|
  {
    if pages != [] {
      PagesDeliverOnce(pages[1..], ends[0], ends[1..], n);
    }
  }

  /** Every line of an earlier page comes before every line of a later one. */
  lemma {:induction false} PagesAreOrdered(pages: seq<seq<nat>>, start: nat, ends: seq<nat>, i: nat, j: nat, m: nat, n: nat)
    requires Paged(pages, start, ends) && i < j < |pages| && m in pages[i] && n in pages[j]
    ensures start <= m < n < Cursor(start, ends)
    decreases |pages|
  {
    LinesInRange(pages[1..], ends[0], ends[1..], j - 1, n);
    if i == 0 {
      assert multiset(pages[0])[m] > 0;
    } else {
      PagesAreOrdered(pages[1..], ends[0], ends[1..], i - 1, j - 1, m, n);
    }
  }

  lemma {:induction false} LinesInRange(pages: seq<seq<nat>>, start: nat, ends: seq<nat>, j: nat, n: nat)
    requires Paged(pages, start, ends) && j < |pages| && n in pages[j]
    ensures start <= n < Cursor(start, ends)
    decreases |pages|
  {
    PagesDeliverOnce(pages[1..], ends[0], ends[1..], n);
    if j == 0 {
      assert multiset(pages[0])[n] > 0;
    } else {
      LinesInRange(pages[1..], ends[0], ends[1..], j - 1, n);
    }
  }

  /** The lines [start, end) were delivered, each exactly once, and no others. */
  ghost predicate ExactlyOnce(pages: seq<seq<nat>>, start: nat, end: nat) {
    forall n: nat :: multiset(Flatten(pages))[n] == if start <= n < end then 1 else 0
  }

  /** Watch delivers a range that begins at start, each line once, exactly when start is 0 or
      the tail found nothing more: the tail begins at the length of the first page, not at its
      end. */
  lemma WatchIsExactIff(pages: seq<seq<nat>>, start: nat, first: nat, ends: seq<nat>)
    requires pages != [] && first > 0 && IsPage(pages[0], start, start + first) && Paged(pages[1..], first, ends)
    ensures (exists end: nat :: ExactlyOnce(pages, start, end)) <==> start == 0 || Cursor(first, ends) == first
    ensures start == 0 ==> ExactlyOnce(pages, 0, Cursor(first, ends))
  {
    var cursor := Cursor(first, ends);
    forall n: nat
      ensures multiset(Flatten(pages))[n] ==
              (if start <= n < start + first then 1 else 0) + (if first <= n < cursor then 1 else 0)
    {
      PagesDeliverOnce(pages[1..], first, ends, n);
      assert multiset(pages[0] + Flatten(pages[1..])) == multiset(pages[0]) + multiset(Flatten(pages[1..]));
    }
    PagesDeliverOnce(pages[1..], first, ends, 0);
    if start == 0 {
      assert ExactlyOnce(pages, 0, cursor);
    } else if cursor == first {
      assert ExactlyOnce(pages, start, start + first);
    } else {
      forall end: nat ensures !ExactlyOnce(pages, start, end) {
        assert multiset(Flatten(pages))[first] == (if start <= first then 2 else 1);
      }
    }
  }

  /** Log request k is answered with lines past start, and those from r up to it without. */
  predicate BringsLines(s: Server, start: nat, r: nat, k: nat) {
    && s.LengthAt(k).Some? && s.LengthAt(k).value > start
    && forall j | r <= j < k :: s.LengthAt(j).Some? && s.LengthAt(j).value <= start
  }

  /** A first page is found exactly when one of the requests brings lines and all before it
      succeed; Watch makes up to four. */
  lemma {:induction false} FirstPageIff(s: Server, start: nat, r: nat, retries: nat)
    ensures FirstPage(s, start, r, retries).0.Some? <==> exists k :: r <= k <= r + retries && BringsLines(s, start, r, k)
    decreases retries
  {
    if s.LengthAt(r).Some? && s.LengthAt(r).value > start {
      assert BringsLines(s, start, r, r);
    } else if s.LengthAt(r).Some? && retries > 0 {
      FirstPageIff(s, start, r + 1, retries - 1);
      forall k | r < k ensures BringsLines(s, start, r, k) <==> BringsLines(s, start, r + 1, k) {}
      if FirstPage(s, start, r, retries).0.Some? {
        var k :| r + 1 <= k <= r + retries && BringsLines(s, start, r + 1, k);
        assert BringsLines(s, start, r, k);
      }
    }
  }

  // ------------------------------------------- how long the tail goes on

  /** Status request j of a tail is answered, and then the status is "running". */
  predicate SeenRunning(s: Server, p: nat, task: TaskFields, j: nat) {
    Answered(s.pings, p + j) && StatusSeen(task.status, s.pings, p, p + j + 1) == "running"
  }

  /** Status request j of a tail is answered, and then the status is not "running". */
  predicate SeenEnded(s: Server, p: nat, task: TaskFields, j: nat) {
    Answered(s.pings, p + j) && StatusSeen(task.status, s.pings, p, p + j + 1) != "running"
  }

  /** Turn j of a tail brings a page: the job is seen running, and the log request succeeds. */
  predicate GoesOn(s: Server, r: nat, p: nat, task: TaskFields, j: nat) {
    SeenRunning(s, p, task, j) && s.LengthAt(r + j).Some?
  }

  lemma {:induction false} StatusSeenLater(status: string, pings: seq<PingReply>, lo: nat, n: nat)
    requires lo < n <= |pings|
    ensures StatusSeen(status, pings, lo, n) ==
            StatusSeen(if pings[lo].Status? then pings[lo].fields.status else status, pings, lo + 1, n)
    decreases n
  {
    if n > lo + 1 {
      StatusSeenLater(status, pings, lo, n - 1);
    }
  }

  /** The turns of a tail are those of the shorter tail after its first one. */
  lemma LaterTurns(s: Server, r: nat, p: nat, task: TaskFields, j: nat)
    requires Answered(s.pings, p)
    ensures var task' := Pinged(task, s.pings[p]);
            && SeenRunning(s, p, task, j + 1) == SeenRunning(s, p + 1, task', j)
            && SeenEnded(s, p, task, j + 1) == SeenEnded(s, p + 1, task', j)
            && GoesOn(s, r, p, task, j + 1) == GoesOn(s, r + 1, p + 1, task', j)
  {
    PingedStatus(task, s.pings[p]);
    if Answered(s.pings, p + j + 1) {
      StatusSeenLater(task.status, s.pings, p, p + j + 2);
    }
  }

  lemma FirstTurn(s: Server, p: nat, task: TaskFields)
    requires Answered(s.pings, p)
    ensures SeenRunning(s, p, task, 0) <==> Pinged(task, s.pings[p]).status == "running"
    ensures SeenEnded(s, p, task, 0) <==> Pinged(task, s.pings[p]).status != "running"
  {
    PingedStatus(task, s.pings[p]);
    assert StatusSeen(task.status, s.pings, p, p) == task.status;
  }

  /** A tail goes on as long as the job is seen running and the log can be read: its pages are
      those of the turns before the first one that fails, and the reason it gives for stopping
      is what happened in that turn. JobEnded in particular means that the job was seen ended. */
  lemma {:induction false} TailStops(s: Server, at: nat, r: nat, p: nat, task: TaskFields)
    ensures var tail := TailFrom(s, at, r, p, task);
            var k := |tail.ends|;
            && (forall j: nat | j < k :: GoesOn(s, r, p, task, j)) && !GoesOn(s, r, p, task, k)
            && (tail.stop.StatusError? <==> !Answered(s.pings, p + k))
            && (tail.stop.JobEnded? <==> SeenEnded(s, p, task, k))
            && (tail.stop.LogError? <==> SeenRunning(s, p, task, k) && s.LengthAt(r + k).None?)
            && tail.pings == p + k + 1
            && tail.logRequests == r + k + (if tail.stop.LogError? then 1 else 0)
    decreases |s.lengths| - r
  {
    hide GoesOn, SeenRunning, SeenEnded, Pinged, StatusSeen;
    var tail := TailFrom(s, at, r, p, task);
    var k := |tail.ends|;
    TurnsNeedAnswers(s, r, p, task);
    if Answered(s.pings, p) {
      FirstTurn(s, p, task);
      var task' := Pinged(task, s.pings[p]);
      if tail.ends != [] {
        var end := PageEnd(at, s.LengthAt(r).value);
        TailStops(s, end, r + 1, p + 1, task');
        assert |TailFrom(s, end, r + 1, p + 1, task').ends| == k - 1;
        LaterTurns(s, r, p, task, k - 1);
        forall j: nat | j < k ensures GoesOn(s, r, p, task, j) {
          if j > 0 {
            LaterTurns(s, r, p, task, j - 1);
          }
        }
      }
    }
  }

  lemma TurnsNeedAnswers(s: Server, r: nat, p: nat, task: TaskFields)
    ensures GoesOn(s, r, p, task, 0) <==> SeenRunning(s, p, task, 0) && s.LengthAt(r).Some?
    ensures !Answered(s.pings, p) ==> !SeenRunning(s, p, task, 0) && !SeenEnded(s, p, task, 0)
  {}

  /** The number of pages is the number of turns that go on. */
  lemma TailLengthIff(s: Server, at: nat, r: nat, p: nat, task: TaskFields, k: nat)
    ensures |TailFrom(s, at, r, p, task).ends| == k <==>
            (forall j: nat | j < k :: GoesOn(s, r, p, task, j)) && !GoesOn(s, r, p, task, k)
  {
    hide TailFrom, GoesOn;
    TailStops(s, at, r, p, task);
  }

  /** Page k begins where the one before it stopped, and has all lines of its answer from there
      on, but no more than fifty. */
  lemma {:induction false} TailPages(s: Server, at: nat, r: nat, p: nat, task: TaskFields, k: nat)
    requires k < |TailFrom(s, at, r, p, task).ends|
    ensures var ends := TailFrom(s, at, r, p, task).ends;
            var from := if k == 0 then at else ends[k - 1];
            s.LengthAt(r + k).Some? && ends[k] == Max(from, Min(s.LengthAt(r + k).value, from + 50))
    decreases k
  {
    hide Pinged;
    var task' := Pinged(task, s.pings[p]);
    if k > 0 {
      TailPages(s, PageEnd(at, s.LengthAt(r).value), r + 1, p + 1, task', k - 1);
    }
  }

  // ------------------------------------------------------ the whole log

  /** The log only grows, and total lines are in it in the end. */
  predicate AppendOnly(s: Server, total: nat) {
    && (forall r | 0 <= r < |s.lengths| && s.lengths[r].Some? :: s.lengths[r].value <= total)
    && (forall r, q | 0 <= r < q < |s.lengths| && s.lengths[r].Some? && s.lengths[q].Some? ::
          s.lengths[r].value <= s.lengths[q].value)
  }

  /** The request that found the first page. */
  lemma {:induction false} FirstPageIsAnswered(s: Server, start: nat, r: nat, retries: nat)
    ensures var (end, asked) := FirstPage(s, start, r, retries);
            end.Some? ==> asked > r && s.LengthAt(asked - 1).Some? && s.LengthAt(asked - 1).value > start
                          && end.value == PageEnd(start, s.LengthAt(asked - 1).value)
    decreases retries
  {
    if s.LengthAt(r).Some? && s.LengthAt(r).value <= start && retries > 0 {
      FirstPageIsAnswered(s, start, r + 1, retries - 1);
    }
  }

  /** Where the last page of a tail begins, counting the page before the tail, which began at
      from, as one of them. */
  function LastFrom(from: nat, at: nat, ends: seq<nat>): nat {
    if ends == [] then from else Cursor(at, ends[..|ends| - 1])
  }

  /** The last answer saw all lines there will ever be, and they fitted on its page. */
  predicate SawAll(s: Server, request: nat, from: nat, total: nat) {
    s.LengthAt(request) == Some(total) && total <= from + PAGE
  }

  /** A tail that takes over after the page [from, at), which request r - 1 brought. */
  lemma {:induction false} TailReachesEndIff(s: Server, total: nat, from: nat, at: nat, r: nat, p: nat, task: TaskFields)
    requires AppendOnly(s, total) && r > 0
    requires s.LengthAt(r - 1).Some? && from <= s.LengthAt(r - 1).value && at == PageEnd(from, s.LengthAt(r - 1).value)
    ensures var ends := TailFrom(s, at, r, p, task).ends;
            && Cursor(at, ends) <= total
            && (Cursor(at, ends) == total <==> SawAll(s, r - 1 + |ends|, LastFrom(from, at, ends), total))
    decreases |s.lengths| - r
  {
    hide Pinged;
    var ends := TailFrom(s, at, r, p, task).ends;
    if ends != [] {
      var end, task' := PageEnd(at, s.LengthAt(r).value), Pinged(task, s.pings[p]);
      var rest := TailFrom(s, end, r + 1, p + 1, task').ends;
      assert ends == [end] + rest;
      TailReachesEndIff(s, total, at, end, r + 1, p + 1, task');
      if rest != [] {
        assert ends[..|ends| - 1] == [end] + rest[..|rest| - 1];
      }
    }
  }

  /** Watch(0) delivers exactly the whole log if and only if its last answered log request,
      the one for the first page when the tail fetches nothing, was made when all lines had
      been written and at most one page of them was missing. Lines beyond that page, and lines
      written after that request, are lost: there is no fetch once the job has ended. */
  lemma WatchDeliversLogIff(s: Server, total: nat, r: nat, p: nat, task: TaskFields, pages: seq<seq<nat>>)
    requires AppendOnly(s, total)
    requires FirstPage(s, 0, r, EMPTY_RETRIES).0.Some?
    requires var (first, asked) := FirstPage(s, 0, r, EMPTY_RETRIES);
             && pages != [] && IsPage(pages[0], 0, first.value)
             && Paged(pages[1..], first.value, TailFrom(s, first.value, asked, p, task).ends)
    ensures var (first, asked) := FirstPage(s, 0, r, EMPTY_RETRIES);
            var ends := TailFrom(s, first.value, asked, p, task).ends;
            && Cursor(first.value, ends) <= total && ExactlyOnce(pages, 0, Cursor(first.value, ends))
            && (ExactlyOnce(pages, 0, total) <==>
                  SawAll(s, asked - 1 + |ends|, LastFrom(0, first.value, ends), total))
            && (ends == [] ==> (ExactlyOnce(pages, 0, total) <==> first.value == total))
  {
    hide TailFrom, FirstPage, Paged, IsPage, AppendOnly, ExactlyOnce, SawAll, PageEnd;
    var (first, asked) := FirstPage(s, 0, r, EMPTY_RETRIES);
    var ends := TailFrom(s, first.value, asked, p, task).ends;
    FirstPageIsAnswered(s, 0, r, EMPTY_RETRIES);
    TailReachesEndIff(s, total, 0, first.value, asked, p, task);
    WatchIsExactIff(pages, 0, first.value, ends);
    RangeIsUnique(pages, Cursor(first.value, ends), total);
  }

  lemma RangeIsUnique(pages: seq<seq<nat>>, cursor: nat, total: nat)
    requires ExactlyOnce(pages, 0, cursor) && cursor <= total
    ensures ExactlyOnce(pages, 0, total) <==> cursor == total
  {
    if cursor < total {
      assert multiset(Flatten(pages))[cursor] == 0;
    }
  }

  /** In terms of the answers: let ping p + k be the first to fail or to see the job ended, or
      log request asked + k the first to fail. Then the last answered log request is the one
      before it, and Watch(0) delivers exactly the whole log if and only if that answer already
      had all lines and no more than fifty of them were missing. */
  lemma WatchDeliversLogOfJobIff(s: Server, total: nat, r: nat, p: nat, task: TaskFields, pages: seq<seq<nat>>, k: nat)
    requires AppendOnly(s, total)
    requires FirstPage(s, 0, r, EMPTY_RETRIES).0.Some?
    requires var (first, asked) := FirstPage(s, 0, r, EMPTY_RETRIES);
             && pages != [] && IsPage(pages[0], 0, first.value)
             && Paged(pages[1..], first.value, TailFrom(s, first.value, asked, p, task).ends)
             && (forall j: nat | j < k :: GoesOn(s, asked, p, task, j)) && !GoesOn(s, asked, p, task, k)
    ensures var (first, asked) := FirstPage(s, 0, r, EMPTY_RETRIES);
            && |pages| == k + 1
            && (ExactlyOnce(pages, 0, total) <==>
                  && s.LengthAt(asked - 1 + k) == Some(total)
                  && total <= 50 + |Flatten(pages[..k])|)
  {
    hide TailFrom, FirstPage, Paged, IsPage, AppendOnly, ExactlyOnce, GoesOn, PageEnd;
    var (first, asked) := FirstPage(s, 0, r, EMPTY_RETRIES);
    var ends := TailFrom(s, first.value, asked, p, task).ends;
    TailLengthIff(s, first.value, asked, p, task, k);
    WatchDeliversLogIff(s, total, r, p, task, pages);
    FirstPageIsAnswered(s, 0, r, EMPTY_RETRIES);
    PagedLength(pages[1..], first.value, ends);
    LinesBeforeLast(pages, first.value, ends);
  }

  lemma PagedLength(pages: seq<seq<nat>>, start: nat, ends: seq<nat>)
    requires Paged(pages, start, ends)
    ensures |pages| == |ends|
  {}

  lemma {:induction false} PageSizes(page: seq<nat>, lo: nat, hi: nat)
    requires IsPage(page, lo, hi) && lo <= hi
    ensures |page| == hi - lo
    decreases hi - lo
  {
    if lo == hi {
      assert page != [] ==> multiset(page)[page[0]] > 0;
    } else {
      assert multiset(page)[hi - 1] == 1;
      var last: nat := hi - 1;
      var i :| 0 <= i < |page| && page[i] == last;
      var rest: seq<nat> := page[..i] + page[i + 1..];
      assert page == page[..i] + [page[i]] + page[i + 1..];
      assert multiset(page) == multiset(rest) + multiset{last};
      forall n: nat ensures multiset(rest)[n] == if lo <= n < last then 1 else 0 {
        assert multiset(page)[n] == multiset(rest)[n] + multiset{last}[n];
      }
      PageSizes(rest, lo, last);
    }
  }

  lemma {:induction false} PagedSize(pages: seq<seq<nat>>, start: nat, ends: seq<nat>)
    requires Paged(pages, start, ends)
    ensures start <= Cursor(start, ends) && |Flatten(pages)| == Cursor(start, ends) - start
    decreases |pages|
  {
    if pages != [] {
      PageSizes(pages[0], start, ends[0]);
      PagedSize(pages[1..], ends[0], ends[1..]);
    }
  }

  lemma {:induction false} PagedPrefix(pages: seq<seq<nat>>, start: nat, ends: seq<nat>)
    requires Paged(pages, start, ends) && pages != []
    ensures Paged(pages[..|pages| - 1], start, ends[..|ends| - 1])
    decreases |pages|
  {
    var front, front' := pages[..|pages| - 1], ends[..|ends| - 1];
    if |pages| > 1 {
      PagedPrefix(pages[1..], ends[0], ends[1..]);
      assert front[1..] == pages[1..][..|pages| - 2] && front'[1..] == ends[1..][..|ends| - 2];
    }
  }

  /** The number of lines delivered before the last page is where that page begins. */
  lemma LinesBeforeLast(pages: seq<seq<nat>>, first: nat, ends: seq<nat>)
    requires pages != [] && IsPage(pages[0], 0, first) && Paged(pages[1..], first, ends)
    ensures |Flatten(pages[..|pages| - 1])| == LastFrom(0, first, ends)
  {
    assert Paged(pages, 0, [first] + ends) by {
      assert ([first] + ends)[1..] == ends;
    }
    PagedPrefix(pages, 0, [first] + ends);
    PagedSize(pages[..|pages| - 1], 0, ([first] + ends)[..|ends|]);
    if ends != [] {
      assert ([first] + ends)[..|ends|] == [first] + ends[..|ends| - 1];
    } else {
      assert ([first] + ends)[..|ends|] == [];
    }
  }

  /** Watch finds a first page exactly when one of its first four log requests brings lines and
      those before it succeed without any. */
  lemma WatchStartsIff(s: Server, start: nat, r: nat)
    ensures FirstPage(s, start, r, EMPTY_RETRIES).0.Some? <==> exists k :: r <= k <= r + 3 && BringsLines(s, start, r, k)
  {
    FirstPageIff(s, start, r, EMPTY_RETRIES);
  }

  /** Both ways of losing lines: a backlog of more than a page when the job ends, and lines
      written between the last fetch and the end of the job. */
  lemma LogCanBeCut(line: nat -> string)
    ensures var running, stopped := Status(NEW_FIELDS.(status := RUNNING)), Status(NEW_FIELDS.(status := STOPPED));
            var backlog := Server(line, [Some(60)], [stopped]);
            var late := Server(line, [Some(3), Some(5), Some(9)], [running, stopped]);
            && AppendOnly(backlog, 60) && FirstPage(backlog, 0, 0, EMPTY_RETRIES) == (Some(50), 1)
            && TailFrom(backlog, 50, 1, 0, NEW_FIELDS).ends == []
            && AppendOnly(late, 9) && FirstPage(late, 0, 0, EMPTY_RETRIES) == (Some(3), 1)
            && TailFrom(late, 3, 1, 0, NEW_FIELDS).ends == [5]
  {
    var running, stopped := Status(NEW_FIELDS.(status := RUNNING)), Status(NEW_FIELDS.(status := STOPPED));
    var late := Server(line, [Some(3), Some(5), Some(9)], [running, stopped]);
    assert Pinged(NEW_FIELDS, running).status == RUNNING;
    assert TailFrom(late, 5, 2, 1, Pinged(NEW_FIELDS, running)).ends == [];
  }
}
