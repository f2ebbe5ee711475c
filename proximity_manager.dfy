/** The render orchestrator (ProximityManager.cs): it splits the kept faces into batches of at
    most twenty deck lines, runs every batch, routes the names the renderer reports as failed
    into a rerender batch for the current attempt, and retries at most three times. */
module Orchestration {
  import opened Wrappers
  import Text
  import Cards
  import Configuration
  import Batching

  const ProximityFileName: string := "proximity-0.6.2.jar"
  const BatchNameBase: string := "hlf_"
  const RerenderBatchNameBase: string := "hlf_rerender_"
  const MaxRerenderAttempts: nat := 3

  /** Where the rerender attempts leave the manager: the deck lines of the rerender batches,
      attempt by attempt, the number of attempts used and the failures of the last one. */
  datatype RerenderState = RerenderState(queue: seq<seq<string>>, attempts: nat, failed: nat)

  /** The name of the batch created when `i` batches already exist. */
  function BatchName(i: nat): string {
    BatchNameBase + Text.NatToString(i)
  }

  /** The name of the rerender batch of attempt `i`. */
  function RerenderBatchName(i: nat): string {
    RerenderBatchNameBase + Text.NatToString(i)
  }

  /** Different batches get different names. */
  lemma {:induction false} BatchNameInjective(i: nat, j: nat)
    ensures BatchName(i) == BatchName(j) <==> i == j
  {
    if BatchName(i) == BatchName(j) {
      assert Text.NatToString(i) == BatchName(i)[|BatchNameBase|..];
      assert Text.NatToString(j) == BatchName(j)[|BatchNameBase|..];
      Text.DigitsValueOfNatToString(i);
      Text.DigitsValueOfNatToString(j);
    }
  }

  /** Different rerender attempts get different names, and no rerender batch is named like a
      batch of the first pass. */
  lemma {:induction false} RerenderBatchNameDistinct(i: nat, j: nat)
    ensures RerenderBatchName(i) == RerenderBatchName(j) <==> i == j
    ensures RerenderBatchName(i) != BatchName(j)
  {
    if RerenderBatchName(i) == RerenderBatchName(j) {
      assert Text.NatToString(i) == RerenderBatchName(i)[|RerenderBatchNameBase|..];
      assert Text.NatToString(j) == RerenderBatchName(j)[|RerenderBatchNameBase|..];
      Text.DigitsValueOfNatToString(i);
      Text.DigitsValueOfNatToString(j);
    }
    assert RerenderBatchName(i)[4] == 'r';
    assert Text.IsDigit(BatchName(j)[4]);
  }

  // ---------------------------------------------------------------------------------------
  // Splitting into batches
  // ---------------------------------------------------------------------------------------

  /** The faces sit in a pool of pairs and every listed position is in it. */
  predicate InPool(faces: seq<Cards.Card>, ks: seq<nat>) {
    |faces| % 2 == 0 && forall p :: 0 <= p < |ks| ==> ks[p] < |faces|
  }

  /** The deck line of the face at `k`, "" when it does not validate. */
  function CardLine(faces: seq<Cards.Card>, settings: Configuration.Settings, k: nat): string
    requires |faces| % 2 == 0 && k < |faces|
  {
    Batching.GenerateCardString(faces[k], faces[Cards.Sibling(k)], settings)
  }

  /** The deck lines of the listed faces, in order, "" for each face that does not validate. */
  function CardLines(faces: seq<Cards.Card>, settings: Configuration.Settings, ks: seq<nat>): (r: seq<string>)
    requires InPool(faces, ks)
    ensures |r| == |ks|
  {
    seq(|ks|, p requires 0 <= p < |ks| => CardLine(faces, settings, ks[p]))
  }

  /** The partner of a face of a pool of pairs is in the pool. */
  lemma {:induction false} SiblingInPool(faces: seq<Cards.Card>, k: nat)
    requires |faces| % 2 == 0 && k < |faces|
    ensures Cards.Sibling(k) < |faces|
  {
  }

  /** One more offered line: the deck lines grow by it unless it is empty. */
  lemma {:induction false} KeptStep(base: seq<string>, lines: seq<string>, i: nat, j: nat, before: seq<string>, after: seq<string>)
    requires i <= j < |lines|
    requires before == base + Text.NonEmpty(lines[i..j])
    requires after == before + (if lines[j] == "" then [] else [lines[j]])
    ensures after == base + Text.NonEmpty(lines[i..j + 1])
  {
    assert lines[i..j + 1] == lines[i..j] + [lines[j]];
    Text.NonEmptySnoc(lines[i..j], lines[j]);
  }

  /** The number of offered faces that the batch starting at the head of `ls` takes when it
      already holds `have` deck lines: always one, then more until it is full or the faces
      run out. */
  function Take(ls: seq<string>, have: nat): (n: nat)
    requires ls != []
    ensures 1 <= n <= |ls|
    decreases |ls|
  {
    var now := have + (if ls[0] != "" then 1 else 0);
    if now >= Batching.MaxCardCount || |ls| == 1 then 1 else 1 + Take(ls[1..], now)
  }

  /** Offering the face at `p` to a batch holding `have` deck lines: it stops there when it
      is then full or the faces run out, and otherwise goes on with the next face. */
  lemma {:induction false} TakeStep(ls: seq<string>, p: nat, have: nat)
    requires p < |ls|
    ensures var now := have + (if ls[p] != "" then 1 else 0);
      Take(ls[p..], have) == if now >= Batching.MaxCardCount || p + 1 == |ls| then 1 else 1 + Take(ls[p + 1..], now)
  {
    assert ls[p..][0] == ls[p];
    assert ls[p..][1..] == ls[p + 1..];
  }

  /** One pass of the loop that fills a batch from `start`: the face at `next` is offered to
      the batch; the deck lines and the count grow by its line unless it is empty, and the
      batch stops after it exactly when Take says so. */
  lemma {:induction false} FillStep(lines: seq<string>, start: nat, next: nat, have: nat, now: nat, before: seq<string>, after: seq<string>)
    requires start <= next < |lines|
    requires before == Text.NonEmpty(lines[start..next])
    requires after == before + (if lines[next] == "" then [] else [lines[next]])
    requires now == have + (if lines[next] != "" then 1 else 0)
    requires Take(lines[start..], 0) == (next - start) + Take(lines[next..], have)
    ensures after == Text.NonEmpty(lines[start..next + 1])
    ensures if now >= Batching.MaxCardCount || next + 1 == |lines| then Take(lines[start..], 0) == next + 1 - start
            else Take(lines[start..], 0) == (next + 1 - start) + Take(lines[next + 1..], now)
  {
    KeptStep([], lines, start, next, before, after);
    TakeStep(lines, next, have);
  }

  /** The offered deck lines, batch by batch. */
  function Partition(ls: seq<string>): seq<seq<string>>
    decreases |ls|
  {
    if ls == [] then [] else var n := Take(ls, 0); [ls[..n]] + Partition(ls[n..])
  }

  /** The batches from position `p` on: the one filled from `p`, then the rest. */
  lemma {:induction false} PartitionHead(ls: seq<string>, p: nat, q: nat)
    requires p < |ls| && q == p + Take(ls[p..], 0)
    ensures q <= |ls| && Partition(ls[p..]) == [ls[p..q]] + Partition(ls[q..])
  {
    var rest := ls[p..];
    assert rest[..q - p] == ls[p..q];
    assert rest[q - p..] == ls[q..];
  }

  /** The batches filled so far followed by the ones from `p` on, one batch later. */
  lemma {:induction false} PartitionAdvance(ls: seq<string>, gs: seq<seq<string>>, p: nat, q: nat)
    requires p < |ls| && q == p + Take(ls[p..], 0)
    requires gs + Partition(ls[p..]) == Partition(ls)
    ensures q <= |ls| && (gs + [ls[p..q]]) + Partition(ls[q..]) == Partition(ls)
  {
    PartitionHead(ls, p, q);
    AppendAssoc(gs, [ls[p..q]], Partition(ls[q..]));
  }

  lemma {:induction false} AppendAssoc<T>(xs: seq<T>, ys: seq<T>, zs: seq<T>)
    ensures (xs + ys) + zs == xs + (ys + zs)
  {
  }

  /** The groups one after the other. */
  function Flatten(gs: seq<seq<string>>): seq<string> {
    if gs == [] then [] else gs[0] + Flatten(gs[1..])
  }

  /** Every face is offered to exactly one batch, in list order. */
  lemma {:induction false} PartitionFlatten(ls: seq<string>)
    ensures Flatten(Partition(ls)) == ls
    decreases |ls|
  {
    if ls != [] {
      var n := Take(ls, 0);
      PartitionFlatten(ls[n..]);
      var gs := Partition(ls);
      assert gs[0] == ls[..n] && gs[1..] == Partition(ls[n..]);
      assert ls[..n] + ls[n..] == ls;
    }
  }

  /** The number of deck lines among the offered lines. */
  function Accepted(g: seq<string>): nat {
    |Text.NonEmpty(g)|
  }

  /** A batch never holds more than twenty deck lines, and it stops taking faces before the
      faces run out only when it holds exactly twenty. */
  lemma {:induction false} TakeCounts(ls: seq<string>, have: nat)
    requires ls != [] && have < Batching.MaxCardCount
    ensures var n := Take(ls, have);
      have + Accepted(ls[..n]) <= Batching.MaxCardCount
      && (n < |ls| ==> have + Accepted(ls[..n]) == Batching.MaxCardCount)
    decreases |ls|
  {
    var n := Take(ls, have);
    var now := have + (if ls[0] != "" then 1 else 0);
    assert ls[..n][0] == ls[0];
    if now >= Batching.MaxCardCount || |ls| == 1 {
      assert ls[..n][1..] == [];
    } else {
      TakeCounts(ls[1..], now);
      assert ls[..n][1..] == ls[1..][..n - 1];
    }
  }

  /** Every batch is offered at least one face and holds at most twenty deck lines; every
      batch but the last holds exactly twenty. */
  lemma {:induction false} PartitionGroups(ls: seq<string>)
    ensures var gs := Partition(ls);
      forall i :: 0 <= i < |gs| ==>
        gs[i] != [] && Accepted(gs[i]) <= Batching.MaxCardCount
        && (i < |gs| - 1 ==> Accepted(gs[i]) == Batching.MaxCardCount)
    decreases |ls|
  {
    if ls != [] {
      var n := Take(ls, 0);
      TakeCounts(ls, 0);
      PartitionGroups(ls[n..]);
      var gs := Partition(ls);
      assert gs[0] == ls[..n];
      forall i | 1 <= i < |gs| ensures gs[i] == Partition(ls[n..])[i - 1] {
      }
    }
  }

  /** When every offered face validates, a batch takes twenty faces or all that are left. */
  lemma {:induction false} TakeAllAccepted(ls: seq<string>, have: nat)
    requires ls != [] && have < Batching.MaxCardCount
    requires forall i :: 0 <= i < |ls| ==> ls[i] != ""
    ensures Take(ls, have) == if |ls| < Batching.MaxCardCount - have then |ls| else Batching.MaxCardCount - have
    decreases |ls|
  {
    if have + 1 < Batching.MaxCardCount && |ls| > 1 {
      TakeAllAccepted(ls[1..], have + 1);
    }
  }

  /** When every offered face validates, n faces make ceil(n / 20) batches of twenty faces
      each, except the last, which holds the rest. */
  lemma {:induction false} PartitionAllAccepted(ls: seq<string>)
    requires forall i :: 0 <= i < |ls| ==> ls[i] != ""
    ensures var gs := Partition(ls);
      |gs| == (|ls| + Batching.MaxCardCount - 1) / Batching.MaxCardCount
      && forall i :: 0 <= i < |gs| ==>
           |gs[i]| == if i < |gs| - 1 then Batching.MaxCardCount else |ls| - Batching.MaxCardCount * (|gs| - 1)
    decreases |ls|
  {
    if ls != [] {
      TakeAllAccepted(ls, 0);
      var n := Take(ls, 0);
      PartitionAllAccepted(ls[n..]);
      var gs := Partition(ls);
      assert gs[0] == ls[..n];
      forall i | 1 <= i < |gs| ensures gs[i] == Partition(ls[n..])[i - 1] {
      }
    }
  }

  /** Forty-five faces that all validate make batches of 20, 20 and 5. */
  lemma {:induction false} FortyFiveFaces(ls: seq<string>)
    requires |ls| == 45 && forall i :: 0 <= i < |ls| ==> ls[i] != ""
    ensures var gs := Partition(ls); |gs| == 3 && |gs[0]| == 20 && |gs[1]| == 20 && |gs[2]| == 5
  {
    PartitionAllAccepted(ls);
  }

  // ---------------------------------------------------------------------------------------
  // Routing failed renders
  // ---------------------------------------------------------------------------------------

  /** A face matches a failed name when its lowercased name contains the lowercased failed
      name. */
  predicate Matches(name: string, failed: string) {
    Text.Contains(Text.ToLower(name), Text.ToLower(failed))
  }

  /** The listed faces whose name matches the failed name, in list order. */
  function Matching(faces: seq<Cards.Card>, ks: seq<nat>, failed: string): (r: seq<nat>)
    requires InPool(faces, ks)
    ensures InPool(faces, r)
    decreases |ks|
  {
    if ks == [] then []
    else (if Matches(faces[ks[0]].name, failed) then [ks[0]] else []) + Matching(faces, ks[1..], failed)
  }

  /** A face is queued for a failed name exactly when it is listed and its name matches. */
  lemma {:induction false} MatchingIff(faces: seq<Cards.Card>, ks: seq<nat>, failed: string, k: nat)
    requires InPool(faces, ks)
    ensures k in Matching(faces, ks, failed) <==> k in ks && k < |faces| && Matches(faces[k].name, failed)
    decreases |ks|
  {
    if ks != [] {
      MatchingIff(faces, ks[1..], failed, k);
      assert k in ks <==> k == ks[0] || k in ks[1..];
    }
  }

  /** The deck lines the rerender batches hold, attempt by attempt, after a failed name is
      reported: nothing changes once the attempts are used up or when the name is empty;
      otherwise the batch of the current attempt, created empty when missing, receives the
      deck lines of the matching faces. */
  function Routed(faces: seq<Cards.Card>, settings: Configuration.Settings, ks: seq<nat>,
                  queue: seq<seq<string>>, attempts: nat, failed: string): (r: seq<seq<string>>)
    requires InPool(faces, ks) && attempts <= |queue| <= attempts + 1
    ensures attempts <= |r| <= attempts + 1
  {
    if attempts >= MaxRerenderAttempts || failed == "" then queue
    else
      var q := if |queue| == attempts then queue + [[]] else queue;
      q[attempts := q[attempts] + Text.NonEmpty(CardLines(faces, settings, Matching(faces, ks, failed)))]
  }

  /** Routing keeps the rerender batches in step with the attempts: there is at most one
      beyond the current attempt, never more than three, and earlier ones are untouched. */
  lemma {:induction false} RoutedShape(faces: seq<Cards.Card>, settings: Configuration.Settings, ks: seq<nat>,
                    queue: seq<seq<string>>, attempts: nat, failed: string)
    requires InPool(faces, ks) && attempts <= |queue| <= attempts + 1 && |queue| <= MaxRerenderAttempts
    ensures var r := Routed(faces, settings, ks, queue, attempts, failed);
      attempts <= |r| <= attempts + 1 && |r| <= MaxRerenderAttempts
      && (forall i :: 0 <= i < |queue| && i != attempts ==> r[i] == queue[i])
      && (attempts < |r| ==> (if attempts < |queue| then queue[attempts] else []) <= r[attempts])
  {
  }

  /** The rerender batches' deck lines after a run reports the failed names in order. */
  function RoutedAll(faces: seq<Cards.Card>, settings: Configuration.Settings, ks: seq<nat>,
                     queue: seq<seq<string>>, attempts: nat, names: seq<string>): (r: seq<seq<string>>)
    requires InPool(faces, ks) && attempts <= |queue| <= attempts + 1
    ensures attempts <= |r| <= attempts + 1
    decreases |names|
  {
    if names == [] then queue
    else
      var before := RoutedAll(faces, settings, ks, queue, attempts, names[..|names| - 1]);
      Routed(faces, settings, ks, before, attempts, names[|names| - 1])
  }

  // ---------------------------------------------------------------------------------------
  // Reading a run's output
  // ---------------------------------------------------------------------------------------

  /** The number of failure lines among the output lines. */
  function FailureCount(out: seq<string>): nat {
    if out == [] then 0
    else FailureCount(out[..|out| - 1]) + (if Batching.IsFailureLine(out[|out| - 1]) then 1 else 0)
  }

  /** The failed name one output line reports, if any. */
  function ReportedBy(data: string): (r: seq<string>)
    ensures |r| <= 1 && (r != [] <==> Batching.IsFailureLine(data) && |Text.Tokens(data)| >= 5)
  {
    match Batching.FailedCardName(data) case Some(n) => [n] case None => []
  }

  /** The failed names the output lines report, in order. */
  function Reported(out: seq<string>): seq<string> {
    if out == [] then [] else Reported(out[..|out| - 1]) + ReportedBy(out[|out| - 1])
  }

  /** Every reported name comes from its own failure line, so a run reports at most as many
      names as it has failure lines. */
  lemma {:induction false} ReportedAtMostFailures(out: seq<string>)
    ensures |Reported(out)| <= FailureCount(out)
    decreases |out|
  {
    if out != [] {
      ReportedAtMostFailures(out[..|out| - 1]);
    }
  }

  /** Failure lines of two stretches of output add up. */
  lemma {:induction false} FailureCountAppend(xs: seq<string>, ys: seq<string>)
    ensures FailureCount(xs + ys) == FailureCount(xs) + FailureCount(ys)
    decreases |ys|
  {
    if ys == [] {
      assert xs + ys == xs;
    } else {
      var init := ys[..|ys| - 1];
      assert (xs + ys)[..|xs + ys| - 1] == xs + init;
      assert (xs + ys)[|xs + ys| - 1] == ys[|ys| - 1];
      FailureCountAppend(xs, init);
    }
  }

  /** The names two stretches of output report follow each other. */
  lemma {:induction false} ReportedAppend(xs: seq<string>, ys: seq<string>)
    ensures Reported(xs + ys) == Reported(xs) + Reported(ys)
    decreases |ys|
  {
    if ys == [] {
      assert xs + ys == xs;
    } else {
      var init, last := ys[..|ys| - 1], ys[|ys| - 1];
      assert (xs + ys)[..|xs + ys| - 1] == xs + init;
      assert (xs + ys)[|xs + ys| - 1] == last;
      ReportedAppend(xs, init);
      AppendAssoc(Reported(xs), Reported(init), ReportedBy(last));
    }
  }

  /** Routing two lists of names one after the other is routing the first, then the second. */
  lemma {:induction false} RoutedAllAppend(faces: seq<Cards.Card>, settings: Configuration.Settings, ks: seq<nat>,
                                           queue: seq<seq<string>>, attempts: nat, ns: seq<string>, ms: seq<string>)
    requires InPool(faces, ks) && attempts <= |queue| <= attempts + 1
    ensures RoutedAll(faces, settings, ks, queue, attempts, ns + ms)
         == RoutedAll(faces, settings, ks, RoutedAll(faces, settings, ks, queue, attempts, ns), attempts, ms)
    decreases |ms|
  {
    if ms == [] {
      assert ns + ms == ns;
    } else {
      var init := ms[..|ms| - 1];
      assert (ns + ms)[..|ns + ms| - 1] == ns + init;
      assert (ns + ms)[|ns + ms| - 1] == ms[|ms| - 1];
      RoutedAllAppend(faces, settings, ks, queue, attempts, ns, init);
    }
  }

  /** Routing leaves the rerender batches before the current attempt untouched. */
  lemma {:induction false} RoutedAllKeeps(faces: seq<Cards.Card>, settings: Configuration.Settings, ks: seq<nat>,
                                          queue: seq<seq<string>>, attempts: nat, names: seq<string>)
    requires InPool(faces, ks) && attempts <= |queue| <= attempts + 1
    ensures var r := RoutedAll(faces, settings, ks, queue, attempts, names);
      forall i :: 0 <= i < attempts ==> r[i] == queue[i]
    decreases |names|
  {
    if names != [] {
      RoutedAllKeeps(faces, settings, ks, queue, attempts, names[..|names| - 1]);
    }
  }

  /** Reading one more output line adds its failure, its reported name and that name's
      routing to what the lines before it did. */
  lemma {:induction false} ReadStep(faces: seq<Cards.Card>, settings: Configuration.Settings, ks: seq<nat>,
                 queue: seq<seq<string>>, attempts: nat, out: seq<string>, j: nat)
    requires InPool(faces, ks) && attempts <= |queue| <= attempts + 1 && j < |out|
    ensures FailureCount(out[..j + 1]) == FailureCount(out[..j]) + (if Batching.IsFailureLine(out[j]) then 1 else 0)
    ensures Reported(out[..j + 1]) == Reported(out[..j]) + ReportedBy(out[j])
    ensures RoutedAll(faces, settings, ks, queue, attempts, Reported(out[..j + 1]))
         == RoutedAll(faces, settings, ks, RoutedAll(faces, settings, ks, queue, attempts, Reported(out[..j])),
                      attempts, ReportedBy(out[j]))
  {
    assert out[..j + 1][..j] == out[..j];
    RoutedAllAppend(faces, settings, ks, queue, attempts, Reported(out[..j]), ReportedBy(out[j]));
  }

  /** The names of the batches, in order. */
  function NamesOf(bs: seq<Batching.ProximityBatch>): (r: seq<string>) {
    seq(|bs|, i requires 0 <= i < |bs| => bs[i].name)
  }

  /** The names of the rerender batches of attempts `from` up to `to`. */
  function RerenderNames(from: nat, to: nat): seq<string>
    requires from <= to
  {
    seq(to - from, i requires 0 <= i < to - from => RerenderBatchName(from + i))
  }

  /** Running one more batch adds its name. */
  lemma {:induction false} NamesOfSnoc(bs: seq<Batching.ProximityBatch>, i: nat)
    requires i < |bs|
    ensures NamesOf(bs[..i + 1]) == NamesOf(bs[..i]) + [bs[i].name]
  {
    assert NamesOf(bs[..i + 1])[i] == bs[i].name;
  }

  /** One attempt runs one rerender batch. */
  lemma {:induction false} RerenderNamesOne(i: nat)
    ensures RerenderNames(i, i + 1) == [RerenderBatchName(i)]
  {
    assert RerenderNames(i, i + 1)[0] == RerenderBatchName(i);
  }

  /** The rerender batches of attempts `from` to `to` are the one of attempt `from`, then
      the rest. */
  lemma {:induction false} RerenderNamesCons(from: nat, to: nat)
    requires from < to
    ensures RerenderNames(from, to) == [RerenderBatchName(from)] + RerenderNames(from + 1, to)
  {
  }

  /** The batches `bs`, the first of which is the batch numbered `from`, hold the groups: each
      is named after its number and holds the deck lines of its group. */
  ghost predicate HoldsGroups(bs: seq<Batching.ProximityBatch>, from: nat, gs: seq<seq<string>>)
    reads bs`deckLines
  {
    |bs| == |gs|
    && forall i :: 0 <= i < |bs| ==> bs[i].name == BatchName(from + i) && bs[i].deckLines == Text.NonEmpty(gs[i])
  }

  /** One more batch, numbered after the ones before it and holding its group. */
  lemma {:induction false} HoldsGroupsSnoc(bs: seq<Batching.ProximityBatch>, from: nat, gs: seq<seq<string>>,
                        b: Batching.ProximityBatch, g: seq<string>)
    requires HoldsGroups(bs, from, gs)
    requires b.name == BatchName(from + |bs|) && b.deckLines == Text.NonEmpty(g)
    ensures HoldsGroups(bs + [b], from, gs + [g])
  {
  }

  /** ProximityManager: the kept faces (positions into the pool of faces), the settings, the
      renderer, the batches of the first pass, one rerender batch per attempt, the number of
      failed renders reported since the last reset and the number of rerender attempts. */
  class ProximityManager {
    const faces: seq<Cards.Card>
    const allCards: seq<nat>
    const settings: Configuration.Settings
    /** The renderer: the lines it prints for a batch, given the batch's name and deck lines,
        or none when its files cannot be found. */
    const render: (string, seq<string>) -> Option<seq<string>>
    var batches: seq<Batching.ProximityBatch>
    var rerenderBatches: seq<Batching.ProximityBatch>
    var failedRenderCount: nat
    var rerenderAttempts: nat
    /** The names of the batches run so far, in order. */
    ghost var runs: seq<string>
    /** The deck lines of the rerender batches, attempt by attempt. */
    ghost var queue: seq<seq<string>>

    /** The manager's invariant: its shape, and the contents of its batches. */
    ghost predicate Valid()
      reads this, batches`cardCount, batches`deckLines, rerenderBatches`cardCount, rerenderBatches`deckLines
    {
      Shape() && Filled()
    }

    /** The rerender batches are distinct objects, apart from the batches of the first pass,
        named after their attempt and run by the renderer file; there is at most one beyond
        the current attempt and never more than three, and one queue entry for each. */
    ghost predicate Shape()
      reads this
    {
      InPool(faces, allCards)
      && (forall i :: 0 <= i < |rerenderBatches| ==>
            rerenderBatches[i].name == RerenderBatchName(i) && rerenderBatches[i].proximityFile == ProximityFileName)
      && (forall i, j :: 0 <= i < j < |rerenderBatches| ==> rerenderBatches[i] != rerenderBatches[j])
      && (forall i, j :: 0 <= i < |batches| && 0 <= j < |rerenderBatches| ==> batches[i] != rerenderBatches[j])
      && rerenderAttempts <= |rerenderBatches| <= rerenderAttempts + 1
      && |rerenderBatches| <= MaxRerenderAttempts
      && |queue| == |rerenderBatches|
    }

    /** Every batch keeps its count, and the rerender batches hold the queue. */
    ghost predicate Filled()
      reads this, batches`cardCount, batches`deckLines, rerenderBatches`cardCount, rerenderBatches`deckLines
    {
      (forall i :: 0 <= i < |batches| ==> batches[i].Valid())
      && (forall i :: 0 <= i < |rerenderBatches| ==> rerenderBatches[i].Valid())
      && |queue| == |rerenderBatches|
      && (forall i :: 0 <= i < |rerenderBatches| ==> rerenderBatches[i].deckLines == queue[i])
    }

    /** The rerender batch of the current attempt, when it exists. */
    function Pending(): set<Batching.ProximityBatch>
      reads this
    {
      if rerenderAttempts < |rerenderBatches| then {rerenderBatches[rerenderAttempts]} else {}
    }

    /** The lines the renderer prints for a batch with this name, renderer file and deck
        lines: none when the batch cannot run (no name, no renderer file or no deck lines) or
        the renderer's files are missing. */
    function Printed(name: string, prox: string, lines: seq<string>): seq<string> {
      if name == "" || prox == "" || lines == [] then []
      else match render(name, lines) case Some(out) => out case None => []
    }

    /** What the renderer prints for the batches `bs`, one after the other, when they hold
        the deck lines `decks`. */
    function Outputs(bs: seq<Batching.ProximityBatch>, decks: seq<seq<string>>): seq<string>
      requires |bs| == |decks|
      decreases |bs|
    {
      if bs == [] then []
      else Outputs(bs[..|bs| - 1], decks[..|bs| - 1]) + Printed(bs[|bs| - 1].name, bs[|bs| - 1].proximityFile, decks[|bs| - 1])
    }

    /** The deck lines of the batches `bs`. */
    ghost function Decks(bs: seq<Batching.ProximityBatch>): (r: seq<seq<string>>)
      reads bs`deckLines
      ensures |r| == |bs| && forall i :: 0 <= i < |bs| ==> r[i] == bs[i].deckLines
      decreases |bs|
    {
      if bs == [] then [] else Decks(bs[..|bs| - 1]) + [bs[|bs| - 1].deckLines]
    }

    /** Running one more batch adds what the renderer prints for it. */
    lemma {:induction false} OutputsStep(bs: seq<Batching.ProximityBatch>, decks: seq<seq<string>>, i: nat)
      requires |bs| == |decks| && i < |bs|
      ensures Outputs(bs[..i + 1], decks[..i + 1]) == Outputs(bs[..i], decks[..i]) + Printed(bs[i].name, bs[i].proximityFile, decks[i])
    {
      assert bs[..i + 1][..i] == bs[..i];
      assert decks[..i + 1][..i] == decks[..i];
    }

    /** The failed names the rerender batch of attempt `i` reports when it runs with the deck
        lines `lines`. */
    function Reports(i: nat, lines: seq<string>): seq<string> {
      Reported(Printed(RerenderBatchName(i), ProximityFileName, lines))
    }

    /** The rerender queue, the attempt count and the failure count once the rerender
        attempts are over, starting from `queue` at attempt `attempts` with `failed` failures:
        when the batch of the current attempt exists, the count is reset, the attempt is
        used up, the batch runs and the names it reports go to the next attempt; this repeats
        while failures remain and attempts are left. */
    function Rerendered(queue: seq<seq<string>>, attempts: nat, failed: nat): (r: RerenderState)
      requires InPool(faces, allCards) && attempts <= |queue| <= attempts + 1
      decreases MaxRerenderAttempts - attempts
    {
      if |queue| > attempts then
        var names := Reports(attempts, queue[attempts]);
        var next := RoutedAll(faces, settings, allCards, queue, attempts + 1, names);
        if |names| > 0 && attempts + 1 < MaxRerenderAttempts then Rerendered(next, attempts + 1, |names|)
        else RerenderState(next, attempts + 1, |names|)
      else RerenderState(queue, attempts, failed)
    }

    /** The rerender attempts stop with no failures left, with every attempt used, or with no
        batch queued for the next attempt; attempts are used only when a batch is queued, and
        never more than three. */
    lemma {:induction false} RerenderedStops(queue: seq<seq<string>>, attempts: nat, failed: nat)
      requires InPool(faces, allCards) && attempts <= |queue| <= attempts + 1 && |queue| <= MaxRerenderAttempts
      ensures var r := Rerendered(queue, attempts, failed);
        attempts <= r.attempts <= MaxRerenderAttempts
        && (r.attempts > attempts <==> |queue| > attempts)
        && (r.failed == 0 || r.attempts == MaxRerenderAttempts || |r.queue| == r.attempts)
      decreases MaxRerenderAttempts - attempts
    {
      if |queue| > attempts {
        var names := Reports(attempts, queue[attempts]);
        var next := RoutedAll(faces, settings, allCards, queue, attempts + 1, names);
        if |names| > 0 && attempts + 1 < MaxRerenderAttempts {
          RerenderedStops(next, attempts + 1, |names|);
        }
      }
    }

    /** The failure count of a rerender state is the number of names the run of its last
        attempt reported. */
    predicate CountsLastAttempt(r: RerenderState) {
      0 < r.attempts <= |r.queue| ==> r.failed == |Reports(r.attempts - 1, r.queue[r.attempts - 1])|
    }

    /** The failure count left after the attempts is the number of names the last attempt's
        run reported: it is reset before each attempt. */
    lemma {:induction false} RerenderedCount(queue: seq<seq<string>>, attempts: nat, failed: nat)
      requires InPool(faces, allCards) && attempts <= |queue| <= attempts + 1 && |queue| <= MaxRerenderAttempts
      ensures attempts < Rerendered(queue, attempts, failed).attempts ==> CountsLastAttempt(Rerendered(queue, attempts, failed))
      decreases MaxRerenderAttempts - attempts
    {
      if |queue| > attempts {
        var names := Reports(attempts, queue[attempts]);
        var next := RoutedAll(faces, settings, allCards, queue, attempts + 1, names);
        RoutedAllKeeps(faces, settings, allCards, queue, attempts + 1, names);
        assert next[attempts] == queue[attempts];
        assert CountsLastAttempt(RerenderState(next, attempts + 1, |names|));
        if |names| > 0 && attempts + 1 < MaxRerenderAttempts {
          RerenderedCount(next, attempts + 1, |names|);
          RerenderedStops(next, attempts + 1, |names|);
        }
      }
    }

    constructor (faces: seq<Cards.Card>, allCards: seq<nat>, settings: Configuration.Settings,
                 render: (string, seq<string>) -> Option<seq<string>>)
      requires InPool(faces, allCards)
      ensures Valid() && this.faces == faces && this.allCards == allCards
      ensures this.settings == settings && this.render == render
      ensures batches == [] && rerenderBatches == [] && failedRenderCount == 0
      ensures rerenderAttempts == 0 && runs == [] && queue == []
    {
      this.faces := faces;
      this.allCards := allCards;
      this.settings := settings;
      this.render := render;
      batches := [];
      rerenderBatches := [];
      failedRenderCount := 0;
      rerenderAttempts := 0;
      runs := [];
      queue := [];
    }

    /** HandleFailedRender: every report counts; while attempts remain and the name is not
        empty, the faces whose name contains it go into the rerender batch of the current
        attempt, which is created when missing. */
    method HandleFailedRender(failed: string)
      requires Valid()
      modifies this, Pending()
      ensures Valid()
      ensures failedRenderCount == old(failedRenderCount) + 1
      ensures rerenderAttempts == old(rerenderAttempts) && batches == old(batches) && runs == old(runs)
      ensures rerenderBatches == old(rerenderBatches)
           || (|old(rerenderBatches)| == rerenderAttempts < |rerenderBatches|
               && rerenderBatches == old(rerenderBatches) + [rerenderBatches[rerenderAttempts]]
               && fresh(rerenderBatches[rerenderAttempts]))
      ensures queue == Routed(faces, settings, allCards, old(queue), rerenderAttempts, failed)
    {
      failedRenderCount := failedRenderCount + 1;
      if rerenderAttempts >= MaxRerenderAttempts {
        return;
      }
      if failed == "" {
        return;
      }
      if |rerenderBatches| == rerenderAttempts {
        OpenRerenderBatch();
      }
      QueueMatches(failed);
    }

    /** The rerender batch of the current attempt, created empty and named after it. */
    method OpenRerenderBatch()
      requires Valid() && |rerenderBatches| == rerenderAttempts < MaxRerenderAttempts
      modifies this
      ensures failedRenderCount == old(failedRenderCount) && rerenderAttempts == old(rerenderAttempts)
      ensures Valid() && rerenderAttempts < |rerenderBatches|
      ensures rerenderBatches == old(rerenderBatches) + [rerenderBatches[rerenderAttempts]]
      ensures fresh(rerenderBatches[rerenderAttempts])
      ensures queue == old(queue) + [[]]
      ensures batches == old(batches) && runs == old(runs)
    {
      var b := new Batching.ProximityBatch(RerenderBatchName(rerenderAttempts), ProximityFileName);
      rerenderBatches := rerenderBatches + [b];
      queue := queue + [[]];
    }

    /** The faces whose name contains the failed name go into the rerender batch of the
        current attempt. */
    method QueueMatches(failed: string)
      requires Valid() && rerenderAttempts < |rerenderBatches|
      modifies this, rerenderBatches[rerenderAttempts]
      ensures Valid()
      ensures batches == old(batches) && rerenderBatches == old(rerenderBatches) && runs == old(runs)
      ensures failedRenderCount == old(failedRenderCount) && rerenderAttempts == old(rerenderAttempts)
      ensures queue == old(queue)[rerenderAttempts :=
        old(queue)[rerenderAttempts] + Text.NonEmpty(CardLines(faces, settings, Matching(faces, allCards, failed)))]
    {
      var target := rerenderBatches[rerenderAttempts];
      var toRerender := Matching(faces, allCards, failed);
      var lines := CardLines(faces, settings, toRerender);
      AddCards(target, faces, settings, toRerender, lines);
      queue := queue[rerenderAttempts := target.deckLines];
    }

    /** One line the renderer prints while batch `b` runs: the batch reads it and hands the
        failed name it reports, if any, to HandleFailedRender. */
    method ReadLine(b: Batching.ProximityBatch, data: string)
      requires Valid() && b !in Pending()
      modifies this, b`failedRenderCount, Pending()
      ensures Valid()
      ensures rerenderAttempts == old(rerenderAttempts) && batches == old(batches) && runs == old(runs)
      ensures old(rerenderBatches) <= rerenderBatches
      ensures forall i :: |old(rerenderBatches)| <= i < |rerenderBatches| ==> fresh(rerenderBatches[i])
      ensures b !in Pending()
      ensures b.failedRenderCount == old(b.failedRenderCount) + (if Batching.IsFailureLine(data) then 1 else 0)
      ensures failedRenderCount == old(failedRenderCount) + |ReportedBy(data)|
      ensures queue == RoutedAll(faces, settings, allCards, old(queue), rerenderAttempts, ReportedBy(data))
    {
      var failed := b.HandleProximityOutput(data);
      Report(failed, b, data);
    }

    /** The manager's side of the output line `data`: the name it reports, if any, goes to
        HandleFailedRender. The batch `b` that read the line does not become the pending
        rerender batch. */
    method Report(failed: Option<string>, ghost b: Batching.ProximityBatch, ghost data: string)
      requires Valid() && b !in Pending() && failed == Batching.FailedCardName(data)
      modifies this, Pending()
      ensures Valid() && b !in Pending()
      ensures rerenderAttempts == old(rerenderAttempts) && batches == old(batches) && runs == old(runs)
      ensures old(rerenderBatches) <= rerenderBatches
      ensures forall i :: |old(rerenderBatches)| <= i < |rerenderBatches| ==> fresh(rerenderBatches[i])
      ensures failedRenderCount == old(failedRenderCount) + |ReportedBy(data)|
      ensures queue == RoutedAll(faces, settings, allCards, old(queue), rerenderAttempts, ReportedBy(data))
    {
      if failed.Some? {
        ReportName(failed.value, b);
        assert ReportedBy(data) == [failed.value] && [failed.value][..0] == [];
      }
    }

    /** A reported name goes to HandleFailedRender; the batch `b` that reported it does not
        become the pending rerender batch. */
    method ReportName(failed: string, ghost b: Batching.ProximityBatch)
      requires Valid() && b !in Pending()
      modifies this, Pending()
      ensures Valid() && b !in Pending()
      ensures rerenderAttempts == old(rerenderAttempts) && batches == old(batches) && runs == old(runs)
      ensures old(rerenderBatches) <= rerenderBatches
      ensures forall i :: |old(rerenderBatches)| <= i < |rerenderBatches| ==> fresh(rerenderBatches[i])
      ensures failedRenderCount == old(failedRenderCount) + 1
      ensures queue == Routed(faces, settings, allCards, old(queue), rerenderAttempts, failed)
    {
      HandleFailedRender(failed);
      if rerenderAttempts < |old(rerenderBatches)| {
        assert rerenderBatches[rerenderAttempts] == old(rerenderBatches)[rerenderAttempts];
      } else if rerenderAttempts < |rerenderBatches| {
        assert fresh(rerenderBatches[rerenderAttempts]);
      }
    }

    /** ProximityBatch.Run: a batch that can run is rendered and every line the renderer
        prints is read, in order. */
    method RunBatch(b: Batching.ProximityBatch)
      requires Valid() && b.Valid() && b !in Pending()
      modifies this, b`failedRenderCount, Pending()
      ensures Valid()
      ensures rerenderAttempts == old(rerenderAttempts) && batches == old(batches)
      ensures runs == old(runs) + [b.name]
      ensures old(rerenderBatches) <= rerenderBatches
      ensures forall i :: |old(rerenderBatches)| <= i < |rerenderBatches| ==> fresh(rerenderBatches[i])
      ensures b.failedRenderCount == old(b.failedRenderCount) + FailureCount(Printed(b.name, b.proximityFile, b.deckLines))
      ensures failedRenderCount == old(failedRenderCount) + |Reported(Printed(b.name, b.proximityFile, b.deckLines))|
      ensures queue == RoutedAll(faces, settings, allCards, old(queue), rerenderAttempts,
                                 Reported(Printed(b.name, b.proximityFile, b.deckLines)))
    {
      runs := runs + [b.name];
      var out: seq<string> := [];
      if b.IsBatchFunctional() {
        match render(b.name, b.deckLines) {
          case Some(o) => out := o;
          case None =>
        }
      }
      assert out == Printed(b.name, b.proximityFile, b.deckLines);
      ReadOutput(b, out);
    }

    /** The renderer's output handler, called for each line it prints, in order. */
    method ReadOutput(b: Batching.ProximityBatch, out: seq<string>)
      requires Valid() && b !in Pending()
      modifies this, b`failedRenderCount, Pending()
      ensures Valid()
      ensures rerenderAttempts == old(rerenderAttempts) && batches == old(batches) && runs == old(runs)
      ensures old(rerenderBatches) <= rerenderBatches
      ensures forall i :: |old(rerenderBatches)| <= i < |rerenderBatches| ==> fresh(rerenderBatches[i])
      ensures b.failedRenderCount == old(b.failedRenderCount) + FailureCount(out)
      ensures failedRenderCount == old(failedRenderCount) + |Reported(out)|
      ensures queue == RoutedAll(faces, settings, allCards, old(queue), rerenderAttempts, Reported(out))
    {
      for j := 0 to |out|
        invariant Valid()
        invariant rerenderAttempts == old(rerenderAttempts) && batches == old(batches) && runs == old(runs)
        invariant old(rerenderBatches) <= rerenderBatches
        invariant forall i :: |old(rerenderBatches)| <= i < |rerenderBatches| ==> fresh(rerenderBatches[i])
        invariant b !in Pending()
        invariant b.failedRenderCount == old(b.failedRenderCount) + FailureCount(out[..j])
        invariant failedRenderCount == old(failedRenderCount) + |Reported(out[..j])|
        invariant queue == RoutedAll(faces, settings, allCards, old(queue), rerenderAttempts, Reported(out[..j]))
      {
        ReadStep(faces, settings, allCards, old(queue), rerenderAttempts, out, j);
        ReadLine(b, out[j]);
      }
      assert out[..|out|] == out;
    }

    /** Run: the faces are sorted into batches, every batch runs in order, and when
        failures were reported the rerender attempts follow. */
    method Run() returns (ghost made: seq<Batching.ProximityBatch>)
      requires Valid()
      modifies this, batches, rerenderBatches
      ensures Valid() && batches == old(batches) + made
      ensures HoldsGroups(made, |old(batches)|, Partition(CardLines(faces, settings, allCards)))
      ensures old(rerenderAttempts) <= rerenderAttempts <= MaxRerenderAttempts
      ensures runs == old(runs) + NamesOf(batches) + RerenderNames(old(rerenderAttempts), rerenderAttempts)
      ensures failedRenderCount == 0 || rerenderAttempts == MaxRerenderAttempts || |rerenderBatches| == rerenderAttempts
      ensures Rendered(old(queue), old(rerenderAttempts), old(failedRenderCount))
    {
      made := SortIntoBatches();
      assert made == batches[|old(batches)|..];
      RenderAll();
    }

    /** What Run's two passes leave behind, starting from the queue `queue0`, the attempt
        `attempts0` and the failure count `failed0`: the failed names the batches reported
        were counted and routed to the rerender batch of the current attempt, and then, when
        there were failures, the rerender attempts ran as Rerendered describes. */
    ghost predicate Rendered(queue0: seq<seq<string>>, attempts0: nat, failed0: nat)
      reads this, batches`deckLines
    {
      InPool(faces, allCards) && attempts0 <= |queue0| <= attempts0 + 1
      && var names := Reported(Outputs(batches, Decks(batches)));
         var first := RerenderState(RoutedAll(faces, settings, allCards, queue0, attempts0, names),
                                    attempts0, failed0 + |names|);
         var last := if first.failed > 0 then Rerendered(first.queue, first.attempts, first.failed) else first;
         queue == last.queue && rerenderAttempts == last.attempts && failedRenderCount == last.failed
    }

    /** Run after the sorting: every batch of the first pass runs, and when failures were
        reported the rerender attempts follow. The first pass keeps its deck lines. */
    method RenderAll()
      requires Valid()
      modifies this, batches, rerenderBatches
      ensures Valid() && batches == old(batches)
      ensures forall k :: 0 <= k < |batches| ==> batches[k].deckLines == old(batches[k].deckLines)
      ensures old(rerenderAttempts) <= rerenderAttempts <= MaxRerenderAttempts
      ensures runs == old(runs) + NamesOf(batches) + RerenderNames(old(rerenderAttempts), rerenderAttempts)
      ensures failedRenderCount == 0 || rerenderAttempts == MaxRerenderAttempts || |rerenderBatches| == rerenderAttempts
      ensures Rendered(old(queue), old(rerenderAttempts), old(failedRenderCount))
    {
      RunAllBatches();
      RerenderFailures();
    }

    /** Run's last step: when failures were reported, the rerender attempts run; the batches
        of the first pass keep their deck lines. */
    method RerenderFailures()
      requires Valid()
      modifies this, rerenderBatches
      ensures Valid() && batches == old(batches)
      ensures forall k :: 0 <= k < |batches| ==> batches[k].deckLines == old(batches[k].deckLines)
      ensures Decks(batches) == old(Decks(batches))
      ensures old(rerenderAttempts) <= rerenderAttempts <= MaxRerenderAttempts
      ensures runs == old(runs) + RerenderNames(old(rerenderAttempts), rerenderAttempts)
      ensures failedRenderCount == 0 || rerenderAttempts == MaxRerenderAttempts || |rerenderBatches| == rerenderAttempts
      ensures var last := if old(failedRenderCount) > 0 then Rerendered(old(queue), old(rerenderAttempts), old(failedRenderCount))
                          else RerenderState(old(queue), old(rerenderAttempts), old(failedRenderCount));
        queue == last.queue && rerenderAttempts == last.attempts && failedRenderCount == last.failed
    {
      if failedRenderCount > 0 {
        assert forall k :: 0 <= k < |batches| ==> batches[k] !in rerenderBatches;
        RerenderedStops(queue, rerenderAttempts, failedRenderCount);
        AttemptRerender();
        assert Decks(batches) == old(Decks(batches));
      } else {
        assert RerenderNames(rerenderAttempts, rerenderAttempts) == [];
      }
    }

    /** Run's second loop: every batch of the first pass runs, in order; the failed names
        they report are routed to the rerender batch of the current attempt. */
    method RunAllBatches()
      requires Valid()
      modifies this, batches, Pending()
      ensures Valid() && batches == old(batches) && rerenderAttempts == old(rerenderAttempts)
      ensures Decks(batches) == old(Decks(batches))
      ensures runs == old(runs) + NamesOf(batches)
      ensures old(rerenderBatches) <= rerenderBatches
      ensures forall i :: |old(rerenderBatches)| <= i < |rerenderBatches| ==> fresh(rerenderBatches[i])
      ensures failedRenderCount == old(failedRenderCount) + |Reported(Outputs(batches, Decks(batches)))|
      ensures queue == RoutedAll(faces, settings, allCards, old(queue), rerenderAttempts, Reported(Outputs(batches, Decks(batches))))
    {
      ghost var bs, decks := batches, Decks(batches);
      assert bs[..0] == [] && decks[..0] == [];
      for i := 0 to |batches|
        invariant Valid() && batches == bs && rerenderAttempts == old(rerenderAttempts)
        invariant FirstPass(i, bs, decks, old(runs), old(failedRenderCount), old(queue))
        invariant Extends(old(rerenderBatches))
        invariant forall k :: |old(rerenderBatches)| <= k < |rerenderBatches| ==> fresh(rerenderBatches[k])
      {
        RunNext(i, bs, decks, old(runs), old(failedRenderCount), old(queue));
      }
      assert bs[..|bs|] == bs && decks[..|bs|] == decks;
    }

    /** The rerender batches begin with `rr0`. */
    ghost predicate Extends(rr0: seq<Batching.ProximityBatch>)
      reads this
    {
      |rr0| <= |rerenderBatches| && forall k :: 0 <= k < |rr0| ==> rerenderBatches[k] == rr0[k]
    }

    /** After the first `i` batches `bs` of the first pass have run with the deck lines
        `decks`, starting from the runs `runs0`, the failure count `failed0` and the queue
        `queue0`: their names were run, and what the renderer printed for them was counted
        and routed. */
    ghost predicate FirstPass(i: nat, bs: seq<Batching.ProximityBatch>, decks: seq<seq<string>>,
                              runs0: seq<string>, failed0: nat, queue0: seq<seq<string>>)
      reads this, bs`deckLines
    {
      i <= |bs| == |decks| && InPool(faces, allCards) && rerenderAttempts <= |queue0| <= rerenderAttempts + 1
      && (forall k :: 0 <= k < |bs| ==> bs[k].deckLines == decks[k])
      && runs == runs0 + NamesOf(bs[..i])
      && failedRenderCount == failed0 + |Reported(Outputs(bs[..i], decks[..i]))|
      && queue == RoutedAll(faces, settings, allCards, queue0, rerenderAttempts, Reported(Outputs(bs[..i], decks[..i])))
    }

    /** One step of the first pass: the batch at index `i` runs. */
    method RunNext(i: nat, ghost bs: seq<Batching.ProximityBatch>, ghost decks: seq<seq<string>>,
                   ghost runs0: seq<string>, ghost failed0: nat, ghost queue0: seq<seq<string>>)
      requires Valid() && batches == bs && i < |bs|
      requires FirstPass(i, bs, decks, runs0, failed0, queue0)
      modifies this, batches`failedRenderCount, Pending()
      ensures Valid() && batches == bs && rerenderAttempts == old(rerenderAttempts)
      ensures FirstPass(i + 1, bs, decks, runs0, failed0, queue0)
      ensures Extends(old(rerenderBatches))
      ensures forall k :: |old(rerenderBatches)| <= k < |rerenderBatches| ==> fresh(rerenderBatches[k])
    {
      FirstPassStep(bs, decks, i, queue0, rerenderAttempts);
      AppendAssoc(runs0, NamesOf(bs[..i]), [bs[i].name]);
      RunFirst(i);
    }

    /** Running the batch at index `i` of the first pass adds its name to the runs and routes
        the names it reports after those of the batches before it. */
    lemma {:induction false} FirstPassStep(bs: seq<Batching.ProximityBatch>, decks: seq<seq<string>>, i: nat,
                        queue0: seq<seq<string>>, attempts: nat)
      requires i < |bs| == |decks| && InPool(faces, allCards) && attempts <= |queue0| <= attempts + 1
      ensures NamesOf(bs[..i + 1]) == NamesOf(bs[..i]) + [bs[i].name]
      ensures var out := Reported(Printed(bs[i].name, bs[i].proximityFile, decks[i]));
        Reported(Outputs(bs[..i + 1], decks[..i + 1])) == Reported(Outputs(bs[..i], decks[..i])) + out
        && RoutedAll(faces, settings, allCards, queue0, attempts, Reported(Outputs(bs[..i + 1], decks[..i + 1])))
           == RoutedAll(faces, settings, allCards,
                        RoutedAll(faces, settings, allCards, queue0, attempts, Reported(Outputs(bs[..i], decks[..i]))),
                        attempts, out)
    {
      var out := Reported(Printed(bs[i].name, bs[i].proximityFile, decks[i]));
      var before := Reported(Outputs(bs[..i], decks[..i]));
      OutputsStep(bs, decks, i);
      ReportedAppend(Outputs(bs[..i], decks[..i]), Printed(bs[i].name, bs[i].proximityFile, decks[i]));
      RoutedAllAppend(faces, settings, allCards, queue0, attempts, before, out);
      NamesOfSnoc(bs, i);
    }

    /** The batch at index `i` of the first pass runs; no batch of the first pass changes its
        deck lines. */
    method RunFirst(i: nat)
      requires Valid() && i < |batches|
      modifies this, batches`failedRenderCount, Pending()
      ensures Valid() && batches == old(batches) && rerenderAttempts == old(rerenderAttempts)
      ensures forall k :: 0 <= k < |batches| ==> batches[k].deckLines == old(batches[k].deckLines)
      ensures runs == old(runs) + [batches[i].name]
      ensures old(rerenderBatches) <= rerenderBatches
      ensures forall k :: |old(rerenderBatches)| <= k < |rerenderBatches| ==> fresh(rerenderBatches[k])
      ensures failedRenderCount == old(failedRenderCount) + |Reported(Printed(batches[i].name, batches[i].proximityFile, old(batches[i].deckLines)))|
      ensures queue == RoutedAll(faces, settings, allCards, old(queue), rerenderAttempts,
                                 Reported(Printed(batches[i].name, batches[i].proximityFile, old(batches[i].deckLines))))
    {
      assert Shape();
      assert forall k :: 0 <= k < |batches| ==> batches[k] !in Pending();
      RunBatch(batches[i]);
    }

    /** AttemptRerender: when the batch of the current attempt exists, the failure count is
        reset, the attempt is used up (so that new failures go to the next attempt's batch)
        and the batch runs; with failures left and attempts remaining it tries again. */
    method AttemptRerender()
      requires Valid()
      modifies this, rerenderBatches
      decreases MaxRerenderAttempts - rerenderAttempts
      ensures Valid() && batches == old(batches)
      ensures queue == Rerendered(old(queue), old(rerenderAttempts), old(failedRenderCount)).queue
      ensures rerenderAttempts == Rerendered(old(queue), old(rerenderAttempts), old(failedRenderCount)).attempts
      ensures failedRenderCount == Rerendered(old(queue), old(rerenderAttempts), old(failedRenderCount)).failed
      ensures old(rerenderAttempts) <= rerenderAttempts
      ensures runs == old(runs) + RerenderNames(old(rerenderAttempts), rerenderAttempts)
      ensures old(rerenderBatches) <= rerenderBatches
      ensures forall i :: |old(rerenderBatches)| <= i < |rerenderBatches| ==> fresh(rerenderBatches[i])
    {
      if |rerenderBatches| > rerenderAttempts {
        ghost var ran := runs;
        var currentAttempt := RunAttempt();
        if failedRenderCount > 0 {
          if rerenderAttempts >= MaxRerenderAttempts {
            RerenderNamesOne(currentAttempt);
            return;
          }
          AttemptRerender();
          RerenderNamesCons(currentAttempt, rerenderAttempts);
          AppendAssoc(ran, [RerenderBatchName(currentAttempt)], RerenderNames(currentAttempt + 1, rerenderAttempts));
        } else {
          RerenderNamesOne(currentAttempt);
        }
      }
    }

    /** One rerender attempt: the count is reset, the attempt is used up and its batch runs;
        the names it reports go to the batch of the next attempt. */
    method RunAttempt() returns (current: nat)
      requires Valid() && rerenderAttempts < |rerenderBatches|
      modifies this, rerenderBatches
      ensures Valid() && batches == old(batches)
      ensures current == old(rerenderAttempts) && rerenderAttempts == current + 1
      ensures var names := Reports(current, old(queue)[current]);
        queue == RoutedAll(faces, settings, allCards, old(queue), rerenderAttempts, names)
        && failedRenderCount == |names|
        && (if |names| > 0 && rerenderAttempts < MaxRerenderAttempts
            then Rerendered(old(queue), current, old(failedRenderCount)) == Rerendered(queue, rerenderAttempts, failedRenderCount)
            else Rerendered(old(queue), current, old(failedRenderCount)) == RerenderState(queue, rerenderAttempts, failedRenderCount))
      ensures runs == old(runs) + [RerenderBatchName(current)]
      ensures old(rerenderBatches) <= rerenderBatches
      ensures forall i :: |old(rerenderBatches)| <= i < |rerenderBatches| ==> fresh(rerenderBatches[i])
    {
      current := StartAttempt();
      RunBatch(rerenderBatches[current]);
    }

    /** The start of a rerender attempt: the failure count is reset and the attempt is used
        up before its batch runs. */
    method StartAttempt() returns (current: nat)
      requires Valid() && rerenderAttempts < |rerenderBatches|
      modifies this
      ensures Valid() && current == old(rerenderAttempts) && rerenderAttempts == current + 1
      ensures failedRenderCount == 0 && Pending() == {}
      ensures batches == old(batches) && rerenderBatches == old(rerenderBatches)
      ensures queue == old(queue) && runs == old(runs)
      ensures rerenderBatches[current].name == RerenderBatchName(current)
      ensures rerenderBatches[current].proximityFile == ProximityFileName
      ensures rerenderBatches[current].deckLines == queue[current] && rerenderBatches[current].Valid()
    {
      failedRenderCount := 0;
      current := rerenderAttempts;
      rerenderAttempts := rerenderAttempts + 1;
    }

    /** Run's first loop: while faces remain, a batch named after the number of batches so
        far is created, appended and filled. */
    method SortIntoBatches() returns (ghost made: seq<Batching.ProximityBatch>)
      requires Valid()
      modifies this
      ensures Valid() && batches == old(batches) + made
      ensures forall i :: |old(batches)| <= i < |batches| ==> fresh(batches[i])
      ensures HoldsGroups(made, |old(batches)|, Partition(CardLines(faces, settings, allCards)))
      ensures rerenderBatches == old(rerenderBatches) && queue == old(queue) && runs == old(runs)
      ensures failedRenderCount == old(failedRenderCount) && rerenderAttempts == old(rerenderAttempts)
    {
      ghost var lines := CardLines(faces, settings, allCards);
      ghost var gs: seq<seq<string>> := [];
      made := [];
      var processed := 0;
      while processed < |allCards|
        invariant processed <= |allCards| == |lines|
        invariant Valid()
        invariant batches == old(batches) + made
        invariant forall i :: |old(batches)| <= i < |batches| ==> fresh(batches[i])
        invariant HoldsGroups(made, |old(batches)|, gs)
        invariant gs + Partition(lines[processed..]) == Partition(lines)
        invariant rerenderBatches == old(rerenderBatches) && queue == old(queue) && runs == old(runs)
        invariant failedRenderCount == old(failedRenderCount) && rerenderAttempts == old(rerenderAttempts)
        decreases |allCards| - processed
      {
        var next, added := SortStep(processed, lines, |old(batches)|, made, gs);
        made := made + [added];
        gs := gs + [lines[processed..next]];
        processed := next;
      }
      assert lines[processed..] == [];
      assert gs == Partition(lines);
    }

    /** One pass of Run's first loop, in terms of the groups `gs` already held by the batches
        `made` numbered from `from` on: the new batch holds the next group. */
    method SortStep(start: nat, ghost lines: seq<string>, ghost from: nat,
                    ghost made: seq<Batching.ProximityBatch>, ghost gs: seq<seq<string>>)
      returns (next: nat, ghost added: Batching.ProximityBatch)
      requires Valid() && start < |allCards| && lines == CardLines(faces, settings, allCards)
      requires HoldsGroups(made, from, gs) && from + |made| == |batches|
      requires gs + Partition(lines[start..]) == Partition(lines)
      modifies this
      ensures Valid() && batches == old(batches) + [added] && fresh(added)
      ensures start < next <= |allCards|
      ensures HoldsGroups(made + [added], from, gs + [lines[start..next]])
      ensures (gs + [lines[start..next]]) + Partition(lines[next..]) == Partition(lines)
      ensures rerenderBatches == old(rerenderBatches) && queue == old(queue) && runs == old(runs)
      ensures failedRenderCount == old(failedRenderCount) && rerenderAttempts == old(rerenderAttempts)
    {
      next, added := FillNextBatch(start, lines);
      assert HoldsGroups(made, from, gs);
      PartitionAdvance(lines, gs, start, next);
      HoldsGroupsSnoc(made, from, gs, added, lines[start..next]);
    }

    /** A new batch, named after the number of batches so far, is appended and filled from
        the face at `start`. */
    method FillNextBatch(start: nat, ghost lines: seq<string>) returns (next: nat, ghost added: Batching.ProximityBatch)
      requires Valid() && start < |allCards| && lines == CardLines(faces, settings, allCards)
      modifies this
      ensures Valid() && batches == old(batches) + [added] && fresh(added)
      ensures added.name == BatchName(|old(batches)|)
      ensures next == start + Take(lines[start..], 0)
      ensures added.deckLines == Text.NonEmpty(lines[start..next])
      ensures rerenderBatches == old(rerenderBatches) && queue == old(queue) && runs == old(runs)
      ensures failedRenderCount == old(failedRenderCount) && rerenderAttempts == old(rerenderAttempts)
    {
      assert forall j :: 0 <= j < |allCards| ==> lines[j] == CardLine(faces, settings, allCards[j]);
      var b := OpenBatch();
      added := b;
      next := FillBatch(b, faces, settings, allCards, lines, start);
      assert Shape();
    }

    /** A new, empty batch named after its place, added to the batches of the first pass. */
    method OpenBatch() returns (b: Batching.ProximityBatch)
      requires Valid()
      modifies this
      ensures Valid() && batches == old(batches) + [b] && fresh(b)
      ensures b.name == BatchName(|old(batches)|) && b.deckLines == [] && b.Valid()
      ensures b !in rerenderBatches
      ensures rerenderBatches == old(rerenderBatches) && queue == old(queue) && runs == old(runs)
      ensures failedRenderCount == old(failedRenderCount) && rerenderAttempts == old(rerenderAttempts)
    {
      b := new Batching.ProximityBatch(BatchName(|batches|), ProximityFileName);
      batches := batches + [b];
    }

    /** The do-while that fills a new batch: it adds the face at `start` and the ones after
        it until the batch is full or the faces run out, and returns where it stopped. */
    static method FillBatch(b: Batching.ProximityBatch, faces: seq<Cards.Card>, settings: Configuration.Settings,
                            ks: seq<nat>, ghost lines: seq<string>, start: nat) returns (next: nat)
      requires b.Valid() && b.deckLines == [] && InPool(faces, ks) && |lines| == |ks| && start < |ks|
      requires forall j :: 0 <= j < |ks| ==> lines[j] == CardLine(faces, settings, ks[j])
      modifies b`cardCount, b`deckLines
      ensures b.Valid()
      ensures next == start + Take(lines[start..], 0)
      ensures b.deckLines == Text.NonEmpty(lines[start..next])
    {
      next := start;
      while true
        invariant start <= next < |ks|
        invariant b.Valid() && b.cardCount < Batching.MaxCardCount
        invariant b.deckLines == Text.NonEmpty(lines[start..next])
        invariant Take(lines[start..], 0) == (next - start) + Take(lines[next..], b.cardCount)
        decreases |ks| - next
      {
        var stop;
        next, stop := OfferFace(b, faces, settings, ks, lines, start, next);
        if stop {
          return;
        }
      }
    }

    /** One pass of the do-while: the face at `next` is added, and the loop stops after it
        when the batch is full or the faces run out. */
    static method OfferFace(b: Batching.ProximityBatch, faces: seq<Cards.Card>, settings: Configuration.Settings,
                            ks: seq<nat>, ghost lines: seq<string>, start: nat, at: nat) returns (next: nat, stop: bool)
      requires InPool(faces, ks) && |lines| == |ks| && start <= at < |ks|
      requires lines[at] == CardLine(faces, settings, ks[at])
      requires b.Valid() && b.cardCount < Batching.MaxCardCount
      requires b.deckLines == Text.NonEmpty(lines[start..at])
      requires Take(lines[start..], 0) == (at - start) + Take(lines[at..], b.cardCount)
      modifies b`cardCount, b`deckLines
      ensures next == at + 1 <= |ks|
      ensures b.Valid() && b.deckLines == Text.NonEmpty(lines[start..next])
      ensures stop ==> Take(lines[start..], 0) == next - start
      ensures !stop ==> next < |ks| && b.cardCount < Batching.MaxCardCount
      ensures !stop ==> Take(lines[start..], 0) == (next - start) + Take(lines[next..], b.cardCount)
    {
      ghost var before := b.deckLines;
      ghost var have := b.cardCount;
      AddFace(b, faces, settings, ks[at]);
      next, stop := Advance(b, ks, lines, start, at, have, before);
    }

    /** The end of a pass of the do-while, once the face at `at` has been offered: `before`
        and `have` are the batch's lines and count before the offer. */
    static method Advance(b: Batching.ProximityBatch, ks: seq<nat>, ghost lines: seq<string>, start: nat, at: nat,
                          ghost have: nat, ghost before: seq<string>) returns (next: nat, stop: bool)
      requires |lines| == |ks| && start <= at < |ks|
      requires b.Valid() && before == Text.NonEmpty(lines[start..at])
      requires b.deckLines == before + (if lines[at] == "" then [] else [lines[at]])
      requires b.cardCount == have + (if lines[at] == "" then 0 else 1)
      requires Take(lines[start..], 0) == (at - start) + Take(lines[at..], have)
      ensures next == at + 1 <= |ks|
      ensures b.deckLines == Text.NonEmpty(lines[start..next])
      ensures stop ==> Take(lines[start..], 0) == next - start
      ensures !stop ==> next < |ks| && b.cardCount < Batching.MaxCardCount
      ensures !stop ==> Take(lines[start..], 0) == (next - start) + Take(lines[next..], b.cardCount)
    {
      FillStep(lines, start, at, have, b.cardCount, before, b.deckLines);
      next := at + 1;
      stop := b.IsFull() || next >= |ks|;
    }

    /** AddCard for the face at position `k` of the pool, whose other face is its partner:
        the batch takes its deck line unless it is empty. */
    static method AddFace(b: Batching.ProximityBatch, faces: seq<Cards.Card>, settings: Configuration.Settings, k: nat)
      requires b.Valid() && |faces| % 2 == 0 && k < |faces|
      modifies b`cardCount, b`deckLines
      ensures b.Valid()
      ensures b.deckLines == old(b.deckLines) + (if CardLine(faces, settings, k) == "" then [] else [CardLine(faces, settings, k)])
      ensures b.cardCount == old(b.cardCount) + (if CardLine(faces, settings, k) == "" then 0 else 1)
    {
      SiblingInPool(faces, k);
      b.AddCard(faces[k], faces[Cards.Sibling(k)], settings);
    }

    /** The foreach that adds the faces at `ks`, in order, to a batch; `lines` are their deck
        lines, "" for a face that does not validate. */
    static method AddCards(target: Batching.ProximityBatch, faces: seq<Cards.Card>,
                           settings: Configuration.Settings, ks: seq<nat>, ghost lines: seq<string>)
      requires target.Valid() && InPool(faces, ks) && |lines| == |ks|
      requires forall j :: 0 <= j < |ks| ==> lines[j] == CardLine(faces, settings, ks[j])
      modifies target`cardCount, target`deckLines
      ensures target.Valid() && target.deckLines == old(target.deckLines) + Text.NonEmpty(lines)
    {
      for j := 0 to |ks|
        invariant target.Valid()
        invariant target.deckLines == old(target.deckLines) + Text.NonEmpty(lines[0..j])
      {
        ghost var before := target.deckLines;
        AddFace(target, faces, settings, ks[j]);
        KeptStep(old(target.deckLines), lines, 0, j, before, target.deckLines);
      }
      assert lines[0..|ks|] == lines;
    }
  }
}
