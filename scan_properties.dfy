/** What the duplicate scan of one product guarantees: the loop agrees with
    the declarative reference, and from that, first occurrence wins, pinned
    and skipped entries survive, nothing is lost that was not already
    represented, and a second run changes nothing. */
module ScanProperties {
  import opened MediaGallery
  import opened DuplicateScan

  /** No digest occurs twice in `s`. */
  predicate Distinct(s: seq<string>)
  {
    forall a, b :: 0 <= a < b < |s| ==> s[a] != s[b]
  }

  /** Running the loop over `k + [e]` is running it over `k`, then one more iteration. */
  lemma ScanSnoc(env: Env, s: Scan, k: seq<Entry>, e: Entry)
    ensures ScanFrom(env, s, k + [e]) == Step(env, ScanFrom(env, s, k), e)
  {
  }

  /** The digests seen at the next position grow by the current entry's,
      if it is compared. */
  lemma SeenBeforeNext(env: Env, g: seq<Entry>, n: nat)
    requires n < |g|
    ensures SeenBefore(env, g, n + 1) ==
      SeenBefore(env, g, n) + (if Compared(env, g[n]) then {DigestOf(env, g[n])} else {})
  {
  }

  /** Before the first entry only the base image's digest counts as seen. */
  lemma SeenBeforeStart(env: Env, g: seq<Entry>)
    ensures SeenBefore(env, g, 0) == set d | d in Seed(env)
  {
  }

  /** The loop state at position `n` agrees with the reference. */
  ghost predicate AgreesAt(env: Env, g: seq<Entry>, n: nat, s: Scan)
    requires n <= |g|
  {
    && (set d | d in s.seen) == SeenBefore(env, g, n)
    && Distinct(s.seen)
    && s.kept == Survivors(env, g, n)
    && s.filePaths == CollectedPaths(env, g, n)
    && s.shouldSave == (s.filePaths != [])
  }

  /** One iteration keeps the loop state in agreement with the reference. */
  lemma StepAgrees(env: Env, g: seq<Entry>, m: nat, s: Scan)
    requires m < |g| && AgreesAt(env, g, m, s)
    ensures AgreesAt(env, g, m + 1, Step(env, s, g[m]))
  {
    SeenBeforeNext(env, g, m);
    var s' := Step(env, s, g[m]);
    if Compared(env, g[m]) && DigestOf(env, g[m]) !in s.seen {
      assert (set d | d in s'.seen) == (set d | d in s.seen) + {DigestOf(env, g[m])};
    }
  }

  /** The loop over the first `n` entries agrees with the reference: its seen
      digests are exactly the ones `SeenBefore` names, each once; it keeps
      the survivors, records the orphans, and is to save exactly when it
      recorded an orphan. */
  lemma {:induction false} PrefixMatchesReference(env: Env, g: seq<Entry>, n: nat)
    requires n <= |g|
    ensures AgreesAt(env, g, n, ScanFrom(env, Start(env), g[..n]))
  {
    if n == 0 {
      assert g[..0] == [];
      SeenBeforeStart(env, g);
    } else {
      var m := n - 1;
      PrefixMatchesReference(env, g, m);
      assert g[..n] == g[..m] + [g[m]];
      ScanSnoc(env, Start(env), g[..m], g[m]);
      StepAgrees(env, g, m, ScanFrom(env, Start(env), g[..m]));
    }
  }

  /** The loop over the whole gallery agrees with the reference. */
  lemma PlanMatchesReference(env: Env, g: seq<Entry>)
    ensures var p := Plan(env, g);
      && (set d | d in p.seen) == SeenBefore(env, g, |g|)
      && Distinct(p.seen)
      && p.kept == Survivors(env, g, |g|)
      && p.filePaths == CollectedPaths(env, g, |g|)
      && p.shouldSave == (p.filePaths != [])
  {
    assert g[..|g|] == g;
    PrefixMatchesReference(env, g, |g|);
    assert AgreesAt(env, g, |g|, Plan(env, g));
  }

  // ---------------------------------------------------------------------
  // Membership in the reference lists

  lemma {:induction false} SurvivorsHas(env: Env, g: seq<Entry>, n: nat, i: nat)
    requires i < n <= |g|
    requires !Redundant(env, g, i)
    ensures g[i] in Survivors(env, g, n)
  {
    if i < n - 1 {
      SurvivorsHas(env, g, n - 1, i);
    }
  }

  lemma {:induction false} CollectedHas(env: Env, g: seq<Entry>, n: nat, i: nat)
    requires i < n <= |g|
    requires Redundant(env, g, i)
    ensures PathOf(env, g[i]) in CollectedPaths(env, g, n)
  {
    if i < n - 1 {
      CollectedHas(env, g, n - 1, i);
    }
  }

  lemma {:induction false} CollectedFrom(env: Env, g: seq<Entry>, n: nat, p: string)
    requires n <= |g|
    requires p in CollectedPaths(env, g, n)
    ensures exists i :: 0 <= i < n && Redundant(env, g, i) && PathOf(env, g[i]) == p
  {
    if p !in CollectedPaths(env, g, n - 1) {
      assert Redundant(env, g, n - 1) && PathOf(env, g[n - 1]) == p;
    } else {
      CollectedFrom(env, g, n - 1, p);
    }
  }

  // ---------------------------------------------------------------------
  // Per-entry guarantees of the plan

  /** An entry that is not redundant is in the retained gallery. */
  lemma NonRedundantKept(env: Env, g: seq<Entry>, i: nat)
    requires i < |g|
    requires !Redundant(env, g, i)
    ensures g[i] in Plan(env, g).kept
  {
    PlanMatchesReference(env, g);
    SurvivorsHas(env, g, |g|, i);
  }

  /** A redundant entry's full path is among the files the plan collects. */
  lemma RedundantListed(env: Env, g: seq<Entry>, i: nat)
    requires i < |g|
    requires Redundant(env, g, i)
    ensures PathOf(env, g[i]) in Plan(env, g).filePaths
    ensures Plan(env, g).shouldSave
  {
    PlanMatchesReference(env, g);
    CollectedHas(env, g, |g|, i);
  }

  /** Pinned entries, the base image's own entry and entries whose file is
      missing always stay in the gallery. */
  lemma PinnedAndSkippedKept(env: Env, g: seq<Entry>)
    ensures forall i :: 0 <= i < |g| && (Pinned(g[i]) || !Compared(env, g[i])) ==> g[i] in Plan(env, g).kept
  {
    forall i | 0 <= i < |g| && (Pinned(g[i]) || !Compared(env, g[i]))
      ensures g[i] in Plan(env, g).kept
    {
      NonRedundantKept(env, g, i);
    }
  }

  /** Every collected path belongs to a redundant entry: compared, unpinned,
      and a repeat of content already seen. */
  lemma CollectedPathsAreRedundant(env: Env, g: seq<Entry>)
    ensures forall p :: p in Plan(env, g).filePaths ==>
      exists i :: 0 <= i < |g| && Redundant(env, g, i) && PathOf(env, g[i]) == p
  {
    PlanMatchesReference(env, g);
    forall p | p in Plan(env, g).filePaths
      ensures exists i :: 0 <= i < |g| && Redundant(env, g, i) && PathOf(env, g[i]) == p
    {
      CollectedFrom(env, g, |g|, p);
    }
  }

  /** A pinned entry's file is never collected for deletion, as long as no
      unpinned entry refers to the same file. */
  lemma PinnedFileNotCollected(env: Env, g: seq<Entry>, i: nat)
    requires i < |g| && Pinned(g[i])
    requires forall j :: 0 <= j < |g| && g[j].file == g[i].file ==> Pinned(g[j])
    ensures PathOf(env, g[i]) !in Plan(env, g).filePaths
  {
    CollectedPathsAreRedundant(env, g);
    forall j | 0 <= j < |g| && Redundant(env, g, j)
      ensures PathOf(env, g[j]) != PathOf(env, g[i])
    {
      ImagePathInjective(env.mediaRoot, g[j].file, g[i].file);
    }
  }

  // ---------------------------------------------------------------------
  // The base image and first occurrence

  /** The loop state at any position starts with the digests it started with. */
  lemma {:induction false} SeenOnlyGrows(env: Env, s: Scan, g: seq<Entry>)
    ensures s.seen <= ScanFrom(env, s, g).seen
  {
    if g != [] {
      SeenOnlyGrows(env, s, g[..|g| - 1]);
    }
  }

  /** When the base image file exists, its digest heads the seen digests
      before any gallery entry is examined, so an unpinned gallery entry with
      the same content (under another file name) is removed. */
  lemma BaseDuplicateRemoved(env: Env, g: seq<Entry>, i: nat)
    requires i < |g|
    requires env.fs.isExists(BasePath(env))
    requires Compared(env, g[i]) && !Pinned(g[i])
    requires DigestOf(env, g[i]) == env.fs.md5(BasePath(env))
    ensures |ScanFrom(env, Start(env), g[..i]).seen| > 0
    ensures ScanFrom(env, Start(env), g[..i]).seen[0] == env.fs.md5(BasePath(env))
    ensures Judge(env, ScanFrom(env, Start(env), g[..i]).seen, g[i]) == Remove
    ensures PathOf(env, g[i]) in Plan(env, g).filePaths
  {
    SeenOnlyGrows(env, Start(env), g[..i]);
    assert Start(env).seen == [env.fs.md5(BasePath(env))];
    RedundantListed(env, g, i);
  }

  /** Of two compared entries with the same content, the later one is removed
      unless it is pinned. */
  lemma LaterDuplicateRemoved(env: Env, g: seq<Entry>, i: nat, j: nat)
    requires i < j < |g|
    requires Compared(env, g[i]) && Compared(env, g[j])
    requires DigestOf(env, g[i]) == DigestOf(env, g[j])
    requires !Pinned(g[j])
    ensures Redundant(env, g, j)
    ensures PathOf(env, g[j]) in Plan(env, g).filePaths
  {
    assert DigestOf(env, g[j]) in (set k | 0 <= k < j && Compared(env, g[k]) :: DigestOf(env, g[k]));
    RedundantListed(env, g, j);
  }

  /** The first compared entry with a given content is kept, unless the base
      image already has that content. */
  lemma FirstOccurrenceKept(env: Env, g: seq<Entry>, i: nat)
    requires i < |g| && Compared(env, g[i])
    requires !(env.fs.isExists(BasePath(env)) && DigestOf(env, g[i]) == env.fs.md5(BasePath(env)))
    requires forall j :: 0 <= j < i && Compared(env, g[j]) ==> DigestOf(env, g[j]) != DigestOf(env, g[i])
    ensures !Redundant(env, g, i)
    ensures g[i] in Plan(env, g).kept
  {
    NonRedundantKept(env, g, i);
  }

  /** A digest seen at position `i` that is not the base image's comes from
      an earlier compared entry that is itself kept. */
  lemma {:induction false} KeptWitness(env: Env, g: seq<Entry>, i: nat, d: string)
    requires i <= |g|
    requires d in SeenBefore(env, g, i) && d !in Seed(env)
    ensures exists j :: 0 <= j < i && Compared(env, g[j]) && !Redundant(env, g, j) && DigestOf(env, g[j]) == d
  {
    var m := i - 1;
    SeenBeforeNext(env, g, m);
    if d in SeenBefore(env, g, m) {
      KeptWitness(env, g, m, d);
    } else {
      assert Compared(env, g[m]) && DigestOf(env, g[m]) == d;
      assert !Redundant(env, g, m);
    }
  }

  /** No content is lost: a removed entry's content is that of the base
      image, or that of an earlier entry that stays in the gallery. */
  lemma RemovedContentRetained(env: Env, g: seq<Entry>, i: nat)
    requires i < |g| && Redundant(env, g, i)
    ensures || (env.fs.isExists(BasePath(env)) && DigestOf(env, g[i]) == env.fs.md5(BasePath(env)))
            || exists j :: 0 <= j < i && Compared(env, g[j]) && DigestOf(env, g[j]) == DigestOf(env, g[i])
                            && g[j] in Plan(env, g).kept
  {
    if DigestOf(env, g[i]) !in Seed(env) {
      KeptWitness(env, g, i, DigestOf(env, g[i]));
      var j :| 0 <= j < i && Compared(env, g[j]) && !Redundant(env, g, j) && DigestOf(env, g[j]) == DigestOf(env, g[i]);
      NonRedundantKept(env, g, j);
    }
  }

  // ---------------------------------------------------------------------
  // Whole-gallery outcomes

  /** With no redundant entry among the first `n`, they all survive and none is orphaned. */
  lemma {:induction false} NoneRedundantAllSurvive(env: Env, g: seq<Entry>, n: nat)
    requires n <= |g|
    requires forall i :: 0 <= i < n ==> !Redundant(env, g, i)
    ensures Survivors(env, g, n) == g[..n]
    ensures CollectedPaths(env, g, n) == []
  {
    if n > 0 {
      NoneRedundantAllSurvive(env, g, n - 1);
      assert g[..n] == g[..n - 1] + [g[n - 1]];
    }
  }

  /** When every compared entry has its own content, different from the base
      image's, the gallery comes back unchanged and nothing is to be saved. */
  lemma DistinctDigestsKeepAll(env: Env, g: seq<Entry>)
    requires forall i :: 0 <= i < |g| && Compared(env, g[i]) ==> DigestOf(env, g[i]) !in Seed(env)
    requires forall i, j :: 0 <= i < j < |g| && Compared(env, g[i]) && Compared(env, g[j]) ==>
      DigestOf(env, g[i]) != DigestOf(env, g[j])
    ensures Plan(env, g).kept == g
    ensures Plan(env, g).filePaths == []
    ensures !Plan(env, g).shouldSave
  {
    forall i | 0 <= i < |g|
      ensures !Redundant(env, g, i)
    {
      if Compared(env, g[i]) {
        assert DigestOf(env, g[i]) !in (set j | 0 <= j < i && Compared(env, g[j]) :: DigestOf(env, g[j]));
      }
    }
    NoneRedundantAllSurvive(env, g, |g|);
    PlanMatchesReference(env, g);
    assert g[..|g|] == g;
  }

  /** Among the first `n` entries of a gallery whose entries all share one
      content and none is pinned, only the first survives. */
  lemma {:induction false} OneContentPrefix(env: Env, g: seq<Entry>, n: nat)
    requires 0 < n <= |g|
    requires forall i :: 0 <= i < |g| ==> Compared(env, g[i]) && !Pinned(g[i]) && DigestOf(env, g[i]) == DigestOf(env, g[0])
    requires DigestOf(env, g[0]) !in Seed(env)
    ensures Survivors(env, g, n) == [g[0]]
    ensures |CollectedPaths(env, g, n)| == n - 1
  {
    if n == 1 {
      SeenBeforeStart(env, g);
    } else {
      OneContentPrefix(env, g, n - 1);
      assert DigestOf(env, g[n - 1]) in (set j | 0 <= j < n - 1 && Compared(env, g[j]) :: DigestOf(env, g[j]));
      assert Redundant(env, g, n - 1);
    }
  }

  /** N unpinned entries sharing one content (not the base image's): the
      earliest is kept and the other N - 1 are collected. */
  lemma OneContentKeepsFirst(env: Env, g: seq<Entry>)
    requires |g| > 0
    requires forall i :: 0 <= i < |g| ==> Compared(env, g[i]) && !Pinned(g[i]) && DigestOf(env, g[i]) == DigestOf(env, g[0])
    requires DigestOf(env, g[0]) !in Seed(env)
    ensures Plan(env, g).kept == [g[0]]
    ensures |Plan(env, g).filePaths| == |g| - 1
  {
    OneContentPrefix(env, g, |g|);
    PlanMatchesReference(env, g);
  }

  // ---------------------------------------------------------------------
  // Idempotence

  /** The retained entries of a loop state, re-scanned from the start, end
      with the same seen digests and nothing collected. */
  ghost predicate Rescans(env: Env, s: Scan)
  {
    ScanFrom(env, Start(env), s.kept) == Scan(s.seen, s.kept, [], false)
  }

  /** One iteration preserves `Rescans`: an entry the loop keeps gets the
      same verdict again, since the seen digests are the same at that point. */
  lemma StepRescans(env: Env, s: Scan, e: Entry)
    requires Rescans(env, s)
    ensures Rescans(env, Step(env, s, e))
  {
  }

  /** Re-running the loop over what the first `n` entries left behind keeps
      all of it, collects nothing, and ends with the very same seen digests. */
  lemma {:induction false} RescanPrefix(env: Env, g: seq<Entry>, n: nat)
    requires n <= |g|
    ensures Rescans(env, ScanFrom(env, Start(env), g[..n]))
  {
    if n == 0 {
      assert g[..0] == [];
    } else {
      var m := n - 1;
      RescanPrefix(env, g, m);
      assert g[..n] == g[..m] + [g[m]];
      ScanSnoc(env, Start(env), g[..m], g[m]);
      StepRescans(env, ScanFrom(env, Start(env), g[..m]), g[m]);
    }
  }

  /** Running the loop a second time on the retained gallery, with the same
      base image and storage, removes nothing and does not ask for a save. */
  lemma SecondRunRemovesNothing(env: Env, g: seq<Entry>)
    ensures var p := Plan(env, g);
      var q := Plan(env, p.kept);
      q.kept == p.kept && q.filePaths == [] && !q.shouldSave && q.seen == p.seen
  {
    assert g[..|g|] == g;
    RescanPrefix(env, g, |g|);
    assert Rescans(env, Plan(env, g));
  }

  // ---------------------------------------------------------------------
  // A worked example

  /** Base image a (content H1); gallery a, b (H1), c (H2), d (H2, pinned):
      a is passed over as the base image, b repeats the base image's content
      and is removed, c is the first with H2 and is kept, d repeats H2 but is
      pinned and is kept. */
  lemma WorkedExample(env: Env, a: Entry, b: Entry, c: Entry, d: Entry)
    requires a.file == env.baseImage && env.fs.isExists(BasePath(env))
    requires Compared(env, b) && Compared(env, c) && Compared(env, d)
    requires DigestOf(env, b) == env.fs.md5(BasePath(env))
    requires DigestOf(env, c) == DigestOf(env, d) != env.fs.md5(BasePath(env))
    requires !Pinned(b) && !Pinned(c) && Pinned(d)
    ensures Plan(env, [a, b, c, d]) ==
      Scan([env.fs.md5(BasePath(env)), DigestOf(env, c)], [a, c, d], [PathOf(env, b)], true)
  {
    var s0 := Start(env);
    var h1 := env.fs.md5(BasePath(env));
    assert [a, b] == [a] + [b] && [a, b, c] == [a, b] + [c] && [a, b, c, d] == [a, b, c] + [d];
    assert DigestOf(env, c) !in [h1];
    assert DigestOf(env, d) in [h1, DigestOf(env, c)];
    ScanSnoc(env, s0, [], a);
    ScanSnoc(env, s0, [a], b);
    ScanSnoc(env, s0, [a, b], c);
    ScanSnoc(env, s0, [a, b, c], d);
    assert ScanFrom(env, s0, [a]) == Scan([h1], [a], [], false);
    assert ScanFrom(env, s0, [a, b]) == Scan([h1], [a], [PathOf(env, b)], true);
    assert ScanFrom(env, s0, [a, b, c]) ==
      Scan([h1, DigestOf(env, c)], [a, c], [PathOf(env, b)], true);
  }
}
