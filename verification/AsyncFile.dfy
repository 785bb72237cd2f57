/** The file with a background writer, as a state machine whose steps are the critical sections of its locks. */
module AsyncFiles {
  import opened Types
  import opened PagedFile

  /** A read that has looked into the queue without success and has yet to look into the file. */
  datatype Pending = Pending(pref: PRef, since: nat)

  /** What a caller has seen: a finished read with the number of pages appended when it began and when it ended, or
      a finished flush with the number of pages appended and the length of the file at its end. */
  datatype Event = Read(pref: PRef, since: nat, till: nat, result: Option<Page>) | Flushed(appended: nat, inFile: nat)

  /** `history` is everything ever in the file, in order of appending; `readers` are threads between their two locks.
      The first `synced` pages of the file survive a crash. */
  datatype State = State(file: seq<Page>, synced: nat, queue: seq<Page>, readers: map<nat, Pending>, history: seq<Page>,
    events: seq<Event>)

  /** `Drain` is the background thread: it holds both locks from the first page to clearing the queue. */
  datatype Label =
    | Append(page: Page) | Drain | LookInQueue(thread: nat, pref: PRef) | LookInFile(thread: nat) | Flush | Sync

  ghost predicate Enabled(s: State, l: Label)
  {
    match l
    case Append(_) => true
    case Drain => s.queue != []
    case LookInQueue(t, pref) => t !in s.readers && pref % PAGE_SIZE == 0
    case LookInFile(t) => t in s.readers
    case Flush => s.queue == []
    case Sync => true
  }

  /** The queue holds the pages behind the end of the file. */
  function ReadInQueue(s: State, pref: PRef): Option<Page>
  {
    var len := PAGE_SIZE * |s.file|;
    if |s.queue| > 0 && pref >= len && (pref - len) / PAGE_SIZE < |s.queue|
      then Some(s.queue[(pref - len) / PAGE_SIZE]) else None
  }

  function Step(s: State, l: Label): State
    requires Enabled(s, l)
  {
    match l
    case Append(page) => s.(queue := s.queue + [page], history := s.history + [page])
    case Drain => s.(file := s.file + s.queue, queue := [])
    case LookInQueue(t, pref) =>
      var found := ReadInQueue(s, pref);
      if found.Some? then s.(events := s.events + [Read(pref, |s.history|, |s.history|, found)])
      else s.(readers := s.readers[t := Pending(pref, |s.history|)])
    case LookInFile(t) =>
      var p := s.readers[t];
      s.(readers := map u | u in s.readers && u != t :: s.readers[u],
         events := s.events + [Read(p.pref, p.since, |s.history|, ReadFlat(s.file, p.pref))])
    case Flush => s.(events := s.events + [Flushed(|s.history|, |s.file|)])
    case Sync => s.(synced := |s.file|)
  }

  /** A run of any length, with the steps of all threads interleaved in any order. */
  ghost predicate Run(ss: seq<State>, ls: seq<Label>)
  {
    && |ss| == |ls| + 1
    && forall i :: 0 <= i < |ls| ==> Enabled(ss[i], ls[i]) && ss[i + 1] == Step(ss[i], ls[i])
  }

  ghost predicate Initial(s: State)
  {
    s.queue == [] && s.readers == map[] && s.events == [] && s.history == s.file && s.synced == |s.file|
  }

  // ---------------------------------------------------------------- safety

  /** A read answers like the plain append-only file at some moment while it lasted: a page appended before it began
      is found, a page not yet appended when it ended is not, and no other page is ever returned. */
  ghost predicate Linearizable(e: Event, history: seq<Page>)
  {
    match e
    case Read(pref, since, till, result) =>
      && since <= till <= |history|
      && exists n :: since <= n <= till && result == ReadFlat(history[..n], pref)
    case Flushed(appended, inFile) => inFile == appended <= |history|
  }

  ghost predicate Safe(s: State)
  {
    && s.file + s.queue == s.history && s.synced <= |s.file|
    && (forall t :: t in s.readers ==> InTheFile(s, s.readers[t]))
    && (forall i :: 0 <= i < |s.events| ==> Linearizable(s.events[i], s.history))
  }

  /** Between its two locks a reader can rely on this: if its page had been appended it has reached the file. */
  ghost predicate InTheFile(s: State, p: Pending)
  {
    p.pref % PAGE_SIZE == 0 && p.since <= |s.history| && (PageNumber(p.pref) < p.since ==>
      PageNumber(p.pref) < |s.file|)
  }

  lemma StillLinearizable(e: Event, history: seq<Page>, longer: seq<Page>)
    requires Linearizable(e, history) && history <= longer
    ensures Linearizable(e, longer)
  {
    if e.Read? {
      var n :| e.since <= n <= e.till && e.result == ReadFlat(history[..n], e.pref);
      assert longer[..n] == history[..n];
    }
  }

  lemma QueueIsTail(s: State, pref: PRef)
    requires s.file + s.queue == s.history && pref % PAGE_SIZE == 0
    ensures ReadInQueue(s, pref).Some? <==> |s.file| <= PageNumber(pref) < |s.history|
    ensures ReadInQueue(s, pref).Some? ==> ReadInQueue(s, pref) == ReadFlat(s.history, pref)
  {
    var len := PAGE_SIZE * |s.file|;
    if pref >= len { assert (pref - len) / PAGE_SIZE == PageNumber(pref) - |s.file|; }
  }

  lemma SecondLook(s: State, p: Pending)
    requires s.file + s.queue == s.history && InTheFile(s, p)
    ensures Linearizable(Read(p.pref, p.since, |s.history|, ReadFlat(s.file, p.pref)), s.history)
  {
    var n := if |s.file| < p.since then p.since else |s.file|;
    assert s.history[..|s.file|] == s.file;
    assert ReadFlat(s.history[..n], p.pref) == ReadFlat(s.file, p.pref);
  }

  lemma StepIsSafe(s: State, l: Label)
    requires Safe(s) && Enabled(s, l)
    ensures Safe(Step(s, l)) && s.history <= Step(s, l).history && s.events <= Step(s, l).events
  {
    var s' := Step(s, l);
    forall i | 0 <= i < |s.events| ensures Linearizable(s.events[i], s'.history) {
      StillLinearizable(s.events[i], s.history, s'.history);
    }
    match l
    case Append(page) => assert s.file + (s.queue + [page]) == s.file + s.queue + [page];
    case Drain => assert s.file + s.queue + [] == s.file + s.queue;
    case LookInQueue(t, pref) =>
      QueueIsTail(s, pref);
      assert s.history[..|s.history|] == s.history;
    case LookInFile(t) => SecondLook(s, s.readers[t]);
    case Flush => assert s.file + [] == s.file;
    case Sync =>
  }

  /** In every state of every run, file and queue together are the append history, in order and complete; every read
      finished so far was linearizable; every flush returned with all appended pages in the file. */
  lemma {:induction false} RunIsSafe(ss: seq<State>, ls: seq<Label>, k: nat)
    requires Run(ss, ls) && Initial(ss[0]) && k < |ss|
    ensures Safe(ss[k])
  {
    if k == 0 {
      assert ss[0].file + [] == ss[0].file;
    } else {
      RunIsSafe(ss, ls, k - 1);
      assert Enabled(ss[k - 1], ls[k - 1]) && ss[k] == Step(ss[k - 1], ls[k - 1]);
      StepIsSafe(ss[k - 1], ls[k - 1]);
    }
  }

  /** So a finished read of page `k` returns it exactly when it was there in time. */
  lemma EventIsExact(ss: seq<State>, ls: seq<Label>, k: nat, i: nat)
    requires Run(ss, ls) && Initial(ss[0]) && k < |ss| && i < |ss[k].events| && ss[k].events[i].Read?
    ensures var e := ss[k].events[i];
            var n := PageNumber(e.pref);
            && (n < e.since ==> n < |ss[k].history| && e.result == Some(ss[k].history[n]))
            && (n >= e.till ==> e.result == None)
            && (e.result.Some? ==> n < |ss[k].history| && e.result.value == ss[k].history[n])
  {
    RunIsSafe(ss, ls, k);
    var e := ss[k].events[i];
    assert Linearizable(e, ss[k].history);
    var n :| e.since <= n <= e.till && e.result == ReadFlat(ss[k].history[..n], e.pref);
  }

  // ---------------------------------------------------------------- who is answered what

  /** What a step answers, told from what has been appended and how much of it is in the file: a first look answers for
      pages in the queue, a second look for pages in the file, a flush for all. */
  ghost function Answers(s: State, l: Label): seq<Event>
    requires |s.file| <= |s.history| && Enabled(s, l)
  {
    match l
    case LookInQueue(t, pref) =>
      var n := pref / 4096;
      if |s.file| <= n < |s.history| then [Read(pref, |s.history|, |s.history|, Some(s.history[n]))] else []
    case LookInFile(t) =>
      var p := s.readers[t];
      [Read(p.pref, p.since, |s.history|, if p.pref / 4096 < |s.file| then Some(s.history[p.pref / 4096]) else None)]
    case Flush => [Flushed(|s.history|, |s.history|)]
    case Append(_) => []
    case Drain => []
    case Sync => []
  }

  /** A step answers just that. A first look without answer leaves its thread waiting with the page it asked for, and a
      second look ends the wait. */
  lemma StepAnswers(s: State, l: Label)
    requires Safe(s) && Enabled(s, l)
    ensures |s.file| <= |s.history| && Step(s, l).events == s.events + Answers(s, l)
    ensures
      match l
      case LookInQueue(t, pref) =>
        Step(s, l).readers == if Answers(s, l) == [] then s.readers[t := Pending(pref, |s.history|)] else s.readers
      case LookInFile(t) =>
        t !in Step(s, l).readers && forall u :: u != t ==>
          (u in Step(s, l).readers <==> u in s.readers) && (u in s.readers ==> Step(s, l).readers[u] == s.readers[u])
      case _ => Step(s, l).readers == s.readers
    ensures Step(s, l).history == s.history + if l.Append? then [l.page] else []
  {
    match l
    case LookInQueue(t, pref) => QueueIsTail(s, pref);
    case LookInFile(t) => assert forall n :: 0 <= n < |s.file| ==> s.file[n] == s.history[n];
    case Flush => assert s.file + [] == s.file;
    case Append(_) =>
    case Drain =>
    case Sync =>
  }

  /** The pages appended by these steps. */
  function Appended(ls: seq<Label>): seq<Page>
  {
    if ls == [] then []
    else Appended(ls[..|ls| - 1]) + if ls[|ls| - 1].Append? then [ls[|ls| - 1].page] else []
  }

  ghost function AllAnswers(ss: seq<State>, ls: seq<Label>, k: nat): seq<Event>
    requires Run(ss, ls) && k <= |ls| && forall i :: 0 <= i <= k ==> |ss[i].file| <= |ss[i].history|
  {
    if k == 0 then [] else AllAnswers(ss, ls, k - 1) + Answers(ss[k - 1], ls[k - 1])
  }

  /** Over every run, the history is what was in the file at first and what was appended since, and the events are the
      answers of its steps, none left out and none added. */
  lemma {:induction false} RunIsAnswered(ss: seq<State>, ls: seq<Label>, k: nat)
    requires Run(ss, ls) && Initial(ss[0]) && k < |ss|
    ensures ss[k].history == ss[0].file + Appended(ls[..k])
    ensures forall i :: 0 <= i <= k ==> |ss[i].file| <= |ss[i].history|
    ensures ss[k].events == AllAnswers(ss, ls, k)
  {
    hide Answers;
    RunIsSafe(ss, ls, k);
    if k > 0 {
      RunIsAnswered(ss, ls, k - 1);
      RunIsSafe(ss, ls, k - 1);
      assert Enabled(ss[k - 1], ls[k - 1]) && ss[k] == Step(ss[k - 1], ls[k - 1]);
      StepAnswers(ss[k - 1], ls[k - 1]);
      assert ls[..k][..k - 1] == ls[..k - 1] && ls[..k][k - 1] == ls[k - 1];
    }
  }

  /** The read that step `i` begins ends with step `k`: at once if its page is in the queue, otherwise with the next
      second look of its thread. */
  ghost predicate Ends(ss: seq<State>, ls: seq<Label>, i: nat, k: nat)
    requires Run(ss, ls)
  {
    && i <= k < |ls| && ls[i].LookInQueue?
    && (if |ss[i].file| <= ls[i].pref / 4096 < |ss[i].history| then k == i
        else i < k && ls[k] == LookInFile(ls[i].thread) && forall j :: i < j < k ==> ls[j] != LookInFile(ls[i].thread))
  }

  /** Until then the thread waits with the page it asked for. */
  lemma {:induction false} Waits(ss: seq<State>, ls: seq<Label>, i: nat, k: nat)
    requires Run(ss, ls) && Initial(ss[0]) && i < k < |ss| && ls[i].LookInQueue?
    requires !(|ss[i].file| <= ls[i].pref / 4096 < |ss[i].history|)
    requires forall j :: i < j < k ==> ls[j] != LookInFile(ls[i].thread)
    ensures ls[i].thread in ss[k].readers
    ensures ss[k].readers[ls[i].thread] == Pending(ls[i].pref, |ss[i].history|)
  {
    hide Safe;
    RunIsSafe(ss, ls, k - 1);
    assert Enabled(ss[k - 1], ls[k - 1]) && ss[k] == Step(ss[k - 1], ls[k - 1]);
    StepAnswers(ss[k - 1], ls[k - 1]);
    if k - 1 > i { Waits(ss, ls, i, k - 1); }
  }

  /** Every read of every run is answered once, for the page it asked for: with that page if it was appended before the
      read began, with nothing if it was not before the read ended, and never with another page. */
  lemma ReadIsExact(ss: seq<State>, ls: seq<Label>, i: nat, k: nat)
    requires Run(ss, ls) && Initial(ss[0]) && Ends(ss, ls, i, k)
    ensures var before, after := ss[0].file + Appended(ls[..i]), ss[0].file + Appended(ls[..k]);
      var n, e := ls[i].pref / 4096, ss[k + 1].events[|ss[k].events|..];
      && ss[k].events <= ss[k + 1].events && |e| == 1
      && e[0] == Read(ls[i].pref, |before|, |after|, e[0].result)
      && (n < |before| ==> n < |after| && e[0].result == Some(after[n]))
      && (n >= |after| ==> e[0].result == None)
      && (e[0].result.Some? ==> n < |after| && e[0].result.value == after[n])
  {
    hide Safe, Answers, Appended;
    RunIsSafe(ss, ls, k);
    RunIsAnswered(ss, ls, i);
    RunIsAnswered(ss, ls, k);
    assert Enabled(ss[k], ls[k]) && ss[k + 1] == Step(ss[k], ls[k]);
    StepAnswers(ss[k], ls[k]);
    if k > i { Waits(ss, ls, i, k); }
    AnswerIsExact(ss[k], ls[k], ls[i].pref, |ss[i].history|);
  }

  lemma AnswerIsExact(s: State, l: Label, pref: PRef, since: nat)
    requires Safe(s) && Enabled(s, l) && |s.file| <= |s.history|
    requires match l
             case LookInQueue(_, p) => p == pref && since == |s.history| && |s.file| <= pref / 4096 < |s.history|
             case LookInFile(t) => s.readers[t] == Pending(pref, since)
             case _ => false
    ensures var n, e := pref / 4096, Answers(s, l);
      && |e| == 1 && e[0] == Read(pref, since, |s.history|, e[0].result)
      && (n < since ==> n < |s.history| && e[0].result == Some(s.history[n]))
      && (n >= |s.history| ==> e[0].result == None)
      && (e[0].result.Some? ==> n < |s.history| && e[0].result.value == s.history[n])
  {
    if l.LookInFile? { assert InTheFile(s, s.readers[l.thread]); }
  }

  /** Every flush returns with all pages appended so far in the file. */
  lemma FlushIsComplete(ss: seq<State>, ls: seq<Label>, k: nat)
    requires Run(ss, ls) && Initial(ss[0]) && k < |ls| && ls[k] == Flush
    ensures var all := ss[0].file + Appended(ls[..k]);
      ss[k].file == all && ss[k + 1].events == ss[k].events + [Flushed(|all|, |all|)]
  {
    RunIsSafe(ss, ls, k);
    RunIsAnswered(ss, ls, k);
    assert Enabled(ss[k], ls[k]) && ss[k + 1] == Step(ss[k], ls[k]);
    assert ss[k].file + [] == ss[k].file;
  }

  /** Nobody is ever stuck: appending is always possible, a reader can begin and end, and a flush can return once the
      queue has been written. */
  lemma NeverStuck(s: State, t: nat, pref: PRef, page: Page)
    ensures Enabled(s, Append(page)) && Enabled(s, Sync)
    ensures t in s.readers ==> Enabled(s, LookInFile(t))
    ensures t !in s.readers && pref % 4096 == 0 ==> Enabled(s, LookInQueue(t, pref))
    ensures if s.queue == [] then Enabled(s, Flush) else Enabled(s, Drain) && Enabled(Step(s, Drain), Flush)
  {
  }

  // ---------------------------------------------------------------- the file with a queue

  /** What the layers above and the theorems about crashes see of it. */
  function Seen(s: State): QFile
    requires s.synced <= |s.file|
  {
    QFile(s.file[..s.synced], s.file[s.synced..] + s.queue, |s.queue|)
  }

  /** What each step is taken for: appending queues a page, draining writes the queue, a flush returns when there is
      nothing left to write, syncing makes sure of what is written, reading changes nothing. */
  function SeenNext(q: QFile, l: Label): QFile
  {
    match l
    case Append(page) => q.Append(page)
    case Drain => q.Flush()
    case Flush => q.Flush()
    case Sync => q.Sync()
    case LookInQueue(_, _) => q
    case LookInFile(_) => q
  }

  lemma StepIsSeen(s: State, l: Label)
    requires Enabled(s, l) && s.synced <= |s.file|
    ensures Step(s, l).synced <= |Step(s, l).file| && Seen(Step(s, l)) == SeenNext(Seen(s), l)
  {
    var tail := s.file[s.synced..];
    match l
    case Append(page) => assert tail + (s.queue + [page]) == tail + s.queue + [page];
    case Drain =>
      var file := s.file + s.queue;
      assert file[..s.synced] == s.file[..s.synced] && file[s.synced..] + [] == tail + s.queue;
    case Sync =>
      assert (tail + s.queue)[..|tail|] == tail && (tail + s.queue)[|tail|..] == s.queue;
      assert s.file[..s.synced] + tail == s.file == s.file[..|s.file|];
      assert s.file[|s.file|..] + s.queue == s.queue;
    case Flush =>
    case LookInQueue(_, _) =>
    case LookInFile(_) =>
  }

  /** Page by page, in order: what a crash leaves is the synced pages and some of those behind them, and just these are
      what `Leaves` says. */
  lemma CrashIsSeen(s: State, image: seq<Page>)
    requires s.synced <= |s.file|
    ensures Seen(s).Leaves(image) <==>
            exists n :: s.synced <= n <= |s.file + s.queue| && image == (s.file + s.queue)[..n]
  {
    var all := s.file + s.queue;
    assert Seen(s).All() == all by { assert s.file[..s.synced] + s.file[s.synced..] == s.file; }
    if Seen(s).Leaves(image) { assert image == all[..|image|]; }
    if n :| s.synced <= n <= |all| && image == all[..n] { assert s.file[..s.synced] == image[..s.synced]; }
  }

  /** A read with nothing in between its two looks answers from file and queue together. */
  lemma ReadIsSeen(s: State, pref: PRef)
    requires s.file + s.queue == s.history && s.synced <= |s.file| && pref % PAGE_SIZE == 0
    ensures var found := ReadInQueue(s, pref);
            (if found.Some? then found else ReadFlat(s.file, pref)) == ReadFlat(Seen(s).All(), pref)
  {
    QueueIsTail(s, pref);
    assert Seen(s).All() == s.history by { assert s.file[..s.synced] + s.file[s.synced..] == s.file; }
  }

  function SeenAfter(q: QFile, ls: seq<Label>): QFile
  {
    if ls == [] then q else SeenNext(SeenAfter(q, ls[..|ls| - 1]), ls[|ls| - 1])
  }

  /** In every state of every run, the file is seen as what the steps so far are taken for. */
  lemma {:induction false} RunIsSeen(ss: seq<State>, ls: seq<Label>, k: nat)
    requires Run(ss, ls) && Initial(ss[0]) && k < |ss|
    ensures ss[k].synced <= |ss[k].file| && Seen(ss[k]) == SeenAfter(Settled(ss[0].file), ls[..k])
  {
    if k == 0 {
      assert ss[0].file[..|ss[0].file|] == ss[0].file;
    } else {
      RunIsSeen(ss, ls, k - 1);
      assert Enabled(ss[k - 1], ls[k - 1]) && ss[k] == Step(ss[k - 1], ls[k - 1]);
      StepIsSeen(ss[k - 1], ls[k - 1]);
      assert ls[..k][..k - 1] == ls[..k - 1];
    }
  }

  // ---------------------------------------------------------------- truncation

  /** Truncating cuts the file and leaves the queue alone. */
  function Truncated(s: State, pages: nat): State
    requires pages <= |s.file|
  {
    s.(file := s.file[..pages])
  }

  /** So it is a truncation of the whole file if and only if nothing is queued. */
  lemma TruncateNeedsEmptyQueue(s: State, pages: nat)
    requires s.file + s.queue == s.history && pages <= |s.file|
    ensures Truncated(s, pages).file + s.queue == s.history[..pages] <==> s.queue == []
  {
    assert |s.file[..pages] + s.queue| == pages + |s.queue|;
    if s.queue == [] { assert s.file[..pages] + s.queue == s.history[..pages]; }
  }

  /** A page queued before a truncation to zero shows up at the start of the file afterwards. */
  lemma TruncateWitness(page: Page)
    ensures var s := State([], 0, [page], map[], [page], []);
            Truncated(s, 0).file + s.queue == [page] != s.history[..0]
  {
    assert [] + [page] == [page];
  }
}
