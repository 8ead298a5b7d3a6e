/** The `duplicate:remove` command around the scan: how its two options are
    read, the loop over one product's gallery, when the product is saved,
    the loop that deletes the collected files, and the run over all products. */
module RemoveDuplicateCommand {
  import opened MediaGallery
  import opened DuplicateScan
  import opened ScanProperties

  datatype Option<T> = None | Some(value: T)

  // ---------------------------------------------------------------------
  // Options

  /** A console option as the command receives it: its boolean default,
      no value (the option given bare), or a string. */
  datatype OptionValue = Flag(b: bool) | NoValue | Text(s: string)

  /** PHP truthiness of an option value: false, null, "" and "0" are falsy. */
  predicate Truthy(v: OptionValue)
  {
    match v
    case Flag(b) => b
    case NoValue => false
    case Text(s) => s != "" && s != "0"
  }

  /** An option is on unless it is the string 'false' or falsy. */
  function IsOn(v: OptionValue): (on: bool)
    ensures on ==> Truthy(v)
    ensures v.Flag? ==> on == v.b
    ensures v.Text? ==> (on <==> v.s !in {"", "0", "false"})
    ensures v.NoValue? ==> !on
  {
    !(v == Text("false")) && Truthy(v)
  }

  /** The defaults: unlink off, dry-run on. */
  const UnlinkDefault: OptionValue := Flag(false)
  const DryRunDefault: OptionValue := Flag(true)

  /** Left at their defaults, the options give a dry run that unlinks nothing. */
  lemma DefaultsAreDryRun()
    ensures IsOn(DryRunDefault) && !IsOn(UnlinkDefault)
  {
  }

  // ---------------------------------------------------------------------
  // Gating of the side effects

  /** Which side effects one product's scan leads to. */
  datatype SideEffects = SideEffects(save: bool, delete: bool, log: bool)

  function Gate(dryRun: bool, unlink: bool, shouldSave: bool): (fx: SideEffects)
    // the product is saved exactly when it is not a dry run and a duplicate was removed
    ensures fx.save <==> !dryRun && shouldSave
    // files are deleted exactly when the product is saved and unlinking was asked for
    ensures fx.delete <==> fx.save && unlink
    // "Deleted file" is reported whenever unlinking was asked for and a duplicate was removed
    ensures fx.log <==> unlink && shouldSave
    // so a dry run with unlink reports deletions it does not perform
    ensures dryRun && unlink && shouldSave ==> fx.log && !fx.delete
    ensures fx.delete ==> fx.log
  {
    SideEffects(!dryRun && shouldSave, !dryRun && unlink && shouldSave, unlink && shouldSave)
  }

  // ---------------------------------------------------------------------
  // The loop over one product's gallery

  /** The scan of one product's gallery, written as the command's loop: the
      base image's digest is seeded first; then each entry is passed over
      (base image, missing file), kept as pinned, removed as a repeat, or
      kept with its digest recorded. */
  method ScanGallery(env: Env, gallery: seq<Entry>) returns (kept: seq<Entry>, filePaths: seq<string>, shouldSave: bool)
    ensures kept == Plan(env, gallery).kept
    ensures filePaths == Plan(env, gallery).filePaths
    ensures shouldSave == Plan(env, gallery).shouldSave
    ensures shouldSave <==> filePaths != []
  {
    var md5Values: seq<string> := [];
    var baseFile := ImagePath(env.mediaRoot, env.baseImage);
    if env.fs.isExists(baseFile) {
      md5Values := md5Values + [env.fs.md5(baseFile)];
    }
    shouldSave := false;
    filePaths := [];
    kept := [];
    for key := 0 to |gallery|
      invariant Scan(md5Values, kept, filePaths, shouldSave) == ScanFrom(env, Start(env), gallery[..key])
    {
      var image := gallery[key];
      assert gallery[..key + 1] == gallery[..key] + [image];
      ScanSnoc(env, Start(env), gallery[..key], image);
      if image.file == env.baseImage {
        kept := kept + [image];
        continue;
      }
      var filePath := ImagePath(env.mediaRoot, image.file);
      if !env.fs.isExists(filePath) {
        kept := kept + [image];
        continue;
      }
      var md5 := env.fs.md5(filePath);
      if md5 in md5Values {
        if |image.types| > 0 {
          kept := kept + [image];
          continue;
        }
        filePaths := filePaths + [filePath];
        shouldSave := true;
      } else {
        md5Values := md5Values + [md5];
        kept := kept + [image];
      }
    }
    assert gallery[..|gallery|] == gallery;
    PlanMatchesReference(env, gallery);
  }

  // ---------------------------------------------------------------------
  // The loop over the collected files

  /** What the deletion loop does that can be observed: a file removed from
      storage, or a "Deleted file" line written. */
  datatype Event = Unlinked(path: string) | Reported(path: string)

  /** The paths that a sequence of events deleted. */
  function UnlinkedPaths(events: seq<Event>): (r: set<string>)
    ensures forall p :: p in r <==> Unlinked(p) in events
  {
    set ev | ev in events && ev.Unlinked? :: ev.path
  }

  /** One more event deletes its path if it is a deletion, and nothing otherwise. */
  lemma UnlinkedPathsSnoc(events: seq<Event>, ev: Event)
    ensures UnlinkedPaths(events + [ev]) ==
      if ev.Unlinked? then UnlinkedPaths(events) + {ev.path} else UnlinkedPaths(events)
  {
    assert forall x :: x in events + [ev] <==> x in events || x == ev;
  }

  /** The deletion loop's state: the events so far, and the collected paths
      it has deleted. */
  datatype Cleanup = Cleanup(events: seq<Event>, gone: set<string>)

  /** One iteration of the deletion loop: nothing unless the path is still a
      regular file (not deleted by an earlier iteration); nothing if a
      deletion was due and failed; otherwise the deletion (when due) and the
      report (when due), in that order. */
  function CleanupStep(fs: FileSystem, fx: SideEffects, c: Cleanup, p: string): Cleanup
  {
    if !fs.isFile(p) || p in c.gone then c
    else if fx.delete && fs.deleteFails(p) then c
    else if fx.delete then
      Cleanup(c.events + [Unlinked(p)] + (if fx.log then [Reported(p)] else []), c.gone + {p})
    else
      Cleanup(c.events + (if fx.log then [Reported(p)] else []), c.gone)
  }

  /** The deletion loop over `paths`, in order, on storage that answers as
      `fs` when the loop starts. */
  function CleanupRun(fs: FileSystem, fx: SideEffects, paths: seq<string>): Cleanup
    decreases |paths|
  {
    if paths == [] then Cleanup([], {})
    else CleanupStep(fs, fx, CleanupRun(fs, fx, paths[..|paths| - 1]), paths[|paths| - 1])
  }

  /** The events of the deletion loop over `paths`. */
  function CleanupTrace(fs: FileSystem, fx: SideEffects, paths: seq<string>): seq<Event>
  {
    CleanupRun(fs, fx, paths).events
  }

  /** The paths the loop records as deleted are exactly those of its deletion events. */
  lemma {:induction false} CleanupGone(fs: FileSystem, fx: SideEffects, paths: seq<string>)
    ensures CleanupRun(fs, fx, paths).gone == UnlinkedPaths(CleanupTrace(fs, fx, paths))
  {
    if paths != [] {
      var init := paths[..|paths| - 1];
      var p := paths[|paths| - 1];
      var c := CleanupRun(fs, fx, init);
      CleanupGone(fs, fx, init);
      if fx.log {
        UnlinkedPathsSnoc(c.events, Unlinked(p));
        UnlinkedPathsSnoc(c.events + [Unlinked(p)], Reported(p));
        UnlinkedPathsSnoc(c.events, Reported(p));
      } else {
        UnlinkedPathsSnoc(c.events, Unlinked(p));
        assert c.events + [] == c.events;
      }
    }
  }

  /** A file is unlinked exactly when it was collected, is a regular file,
      deletion is due and succeeds; a deletion is reported exactly when the
      path was collected, is a regular file, the report is due, and no due
      deletion of it failed. */
  lemma {:induction false} CleanupTraceMembership(fs: FileSystem, fx: SideEffects, paths: seq<string>)
    ensures forall p :: Unlinked(p) in CleanupTrace(fs, fx, paths) <==>
      p in paths && fs.isFile(p) && fx.delete && !fs.deleteFails(p)
    ensures forall p :: Reported(p) in CleanupTrace(fs, fx, paths) <==>
      p in paths && fs.isFile(p) && fx.log && !(fx.delete && fs.deleteFails(p))
  {
    if paths != [] {
      var init := paths[..|paths| - 1];
      CleanupTraceMembership(fs, fx, init);
      CleanupGone(fs, fx, init);
      assert paths == init + [paths[|paths| - 1]];
    }
  }

  /** No path is deleted twice in `events`. */
  predicate UnlinksOnce(events: seq<Event>)
  {
    forall i, j :: 0 <= i < j < |events| && events[i].Unlinked? ==> events[i] != events[j]
  }

  /** No event occurs twice in `events`. */
  predicate NoRepeats(events: seq<Event>)
  {
    forall i, j :: 0 <= i < j < |events| ==> events[i] != events[j]
  }

  /** A path that occurs several times among the collected paths is deleted
      at most once: after its deletion it is no longer a regular file. When
      deletion is due, no event occurs twice at all. */
  lemma {:induction false} CleanupTraceOnce(fs: FileSystem, fx: SideEffects, paths: seq<string>)
    ensures UnlinksOnce(CleanupTrace(fs, fx, paths))
    ensures fx.delete ==> NoRepeats(CleanupTrace(fs, fx, paths))
  {
    if paths != [] {
      var init := paths[..|paths| - 1];
      var last := paths[|paths| - 1];
      var c := CleanupRun(fs, fx, init);
      var before := c.events;
      CleanupTraceOnce(fs, fx, init);
      CleanupTraceMembership(fs, fx, init);
      CleanupGone(fs, fx, init);
      var added: seq<Event> :=
        if !fs.isFile(last) || last in c.gone || (fx.delete && fs.deleteFails(last)) then []
        else (if fx.delete then [Unlinked(last)] else []) + (if fx.log then [Reported(last)] else []);
      var ev := before + added;
      assert ev == CleanupTrace(fs, fx, paths);
      // every new event is about `last`, which no earlier event deleted
      assert forall k :: 0 <= k < |added| ==> added[k] == Unlinked(last) || added[k] == Reported(last);
      assert added != [] ==> Unlinked(last) !in before;
      // and, when deletion is due, which no earlier event reported either
      assert fx.delete && added != [] ==> Reported(last) !in before;
      assert forall i, j :: 0 <= i < j < |added| ==> added[i] != added[j];
      forall i, j | 0 <= i < j < |ev| && ev[i].Unlinked?
        ensures ev[i] != ev[j]
      {
        if j >= |before| && i < |before| {
          assert ev[j] == added[j - |before|] && (ev[j].Unlinked? ==> ev[j] !in before);
          assert ev[i] == before[i] && ev[i] in before;
        } else if i >= |before| {
          assert ev[i] == added[i - |before|] && ev[j] == added[j - |before|];
        } else {
          assert ev[i] == before[i] && ev[j] == before[j];
        }
      }
      if fx.delete {
        forall i, j | 0 <= i < j < |ev|
          ensures ev[i] != ev[j]
        {
          if j >= |before| && i < |before| {
            assert ev[j] == added[j - |before|] && ev[j] !in before;
            assert ev[i] == before[i] && ev[i] in before;
          } else if i >= |before| {
            assert ev[i] == added[i - |before|] && ev[j] == added[j - |before|];
          } else {
            assert ev[i] == before[i] && ev[j] == before[j];
          }
        }
      }
    }
  }

  /** A regular file collected twice in an applied run with unlink on is
      deleted and reported once: the second time it is no longer a file. */
  lemma RepeatedPathDeletedOnce(fs: FileSystem, fx: SideEffects, p: string)
    requires fs.isFile(p) && !fs.deleteFails(p) && fx.delete && fx.log
    ensures CleanupTrace(fs, fx, [p, p]) == [Unlinked(p), Reported(p)]
  {
    assert [p, p][..1] == [p];
    assert [p][..0] == [];
    assert CleanupRun(fs, fx, [p]) == Cleanup([Unlinked(p), Reported(p)], {p});
  }

  /** With neither deletion nor report due, the deletion loop does nothing observable. */
  lemma {:induction false} SilentCleanup(fs: FileSystem, fx: SideEffects, paths: seq<string>)
    requires !fx.delete && !fx.log
    ensures CleanupTrace(fs, fx, paths) == []
  {
    if paths != [] {
      SilentCleanup(fs, fx, paths[..|paths| - 1]);
    }
  }

  /** The deletion loop: each collected path that is still a regular file is
      deleted through the driver when the gate allows it (a failed deletion
      skips the report), then reported when the gate allows it. */
  method DeleteCollected(driver: FileDriver, fx: SideEffects, filePaths: seq<string>) returns (events: seq<Event>)
    modifies driver
    ensures events == CleanupTrace(Gone(driver.disk, old(driver.removed)), fx, filePaths)
    ensures driver.removed == old(driver.removed) + UnlinkedPaths(events)
  {
    ghost var fs := Gone(driver.disk, driver.removed);
    ghost var gone: set<string> := {};
    events := [];
    for i := 0 to |filePaths|
      invariant CleanupRun(fs, fx, filePaths[..i]) == Cleanup(events, gone)
      invariant driver.removed == old(driver.removed) + gone
    {
      var filePath := filePaths[i];
      assert filePaths[..i + 1][..i] == filePaths[..i];
      if !driver.IsFile(filePath) {
        continue;
      }
      if fx.delete {
        var failed := driver.DeleteFile(filePath);
        if failed {
          continue;
        }
        events := events + [Unlinked(filePath)];
        gone := gone + {filePath};
      }
      if fx.log {
        events := events + [Reported(filePath)];
      }
    }
    assert filePaths[..|filePaths|] == filePaths;
    CleanupGone(fs, fx, filePaths);
  }

  // ---------------------------------------------------------------------
  // One product, and the whole run

  /** A candidate product: its SKU, its base image reference and its gallery. */
  datatype Product = Product(sku: string, image: string, gallery: seq<Entry>)

  /** What processing one product does: the gallery it saves, if any, and
      the deletion loop's events. */
  datatype Outcome = Outcome(saved: Option<seq<Entry>>, events: seq<Event>)

  /** One product on storage that answers as `fs` when the product is reached. */
  function ProductOutcome(fs: FileSystem, mediaRoot: string, dryRun: bool, unlink: bool, product: Product): Outcome
  {
    if product.gallery == [] then Outcome(None, [])
    else
      var p := Plan(Env(fs, mediaRoot, product.image), product.gallery);
      var fx := Gate(dryRun, unlink, p.shouldSave);
      Outcome(if fx.save then Some(p.kept) else None, CleanupTrace(fs, fx, p.filePaths))
  }

  /** One product: scan its gallery (an empty gallery is passed over), save
      the retained gallery when the gate allows it, then run the deletion loop. */
  method ProcessProduct(driver: FileDriver, mediaRoot: string, dryRun: bool, unlink: bool, product: Product)
    returns (outcome: Outcome)
    modifies driver
    ensures outcome == ProductOutcome(Gone(driver.disk, old(driver.removed)), mediaRoot, dryRun, unlink, product)
    ensures driver.removed == old(driver.removed) + UnlinkedPaths(outcome.events)
    ensures product.gallery == [] ==> outcome == Outcome(None, [])
  {
    var env := Env(Gone(driver.disk, driver.removed), mediaRoot, product.image);
    if product.gallery == [] {
      return Outcome(None, []);
    }
    var kept, filePaths, shouldSave := ScanGallery(env, product.gallery);
    var fx := Gate(dryRun, unlink, shouldSave);
    var saved: Option<seq<Entry>> := None;
    if fx.save {
      saved := Some(kept);
    }
    var events := DeleteCollected(driver, fx, filePaths);
    outcome := Outcome(saved, events);
  }

  /** The files deleted while processing the products of `outcomes`. */
  function RemovedBy(outcomes: seq<Outcome>): set<string>
  {
    set k, ev | 0 <= k < |outcomes| && ev in outcomes[k].events && ev.Unlinked? :: ev.path
  }

  /** One more product adds the files its own deletion loop deleted. */
  lemma RemovedBySnoc(outcomes: seq<Outcome>, o: Outcome)
    ensures RemovedBy(outcomes + [o]) == RemovedBy(outcomes) + UnlinkedPaths(o.events)
  {
    var os := outcomes + [o];
    assert forall k :: 0 <= k < |outcomes| ==> os[k] == outcomes[k];
    assert os[|outcomes|] == o;
  }

  /** The outcomes of the products in order, each processed on the storage as
      the products before it left it: a file they deleted no longer exists
      and is no longer a regular file. */
  function RunOutcomes(disk: FileSystem, removed: set<string>, mediaRoot: string, dryRun: bool, unlink: bool,
                       products: seq<Product>): (os: seq<Outcome>)
    ensures |os| == |products|
    decreases |products|
  {
    if products == [] then []
    else
      var before := RunOutcomes(disk, removed, mediaRoot, dryRun, unlink, products[..|products| - 1]);
      before + [ProductOutcome(Gone(disk, removed + RemovedBy(before)), mediaRoot, dryRun, unlink,
                               products[|products| - 1])]
  }

  /** The run over one more product. */
  lemma RunOutcomesSnoc(disk: FileSystem, removed: set<string>, mediaRoot: string, dryRun: bool, unlink: bool,
                        products: seq<Product>, p: Product)
    ensures var before := RunOutcomes(disk, removed, mediaRoot, dryRun, unlink, products);
      RunOutcomes(disk, removed, mediaRoot, dryRun, unlink, products + [p]) ==
      before + [ProductOutcome(Gone(disk, removed + RemovedBy(before)), mediaRoot, dryRun, unlink, p)]
  {
    assert (products + [p])[..|products|] == products;
  }

  /** One outcome per product, and the outcome of product `i` is that of
      processing it on the storage left by the products before it. */
  lemma {:induction false} RunOutcomesEach(disk: FileSystem, removed: set<string>, mediaRoot: string,
                                           dryRun: bool, unlink: bool, products: seq<Product>)
    ensures var os := RunOutcomes(disk, removed, mediaRoot, dryRun, unlink, products);
      forall i :: 0 <= i < |products| ==>
        os[i] == ProductOutcome(Gone(disk, removed + RemovedBy(os[..i])), mediaRoot, dryRun, unlink, products[i])
  {
    if products != [] {
      var n := |products| - 1;
      var init := products[..n];
      RunOutcomesEach(disk, removed, mediaRoot, dryRun, unlink, init);
      var before := RunOutcomes(disk, removed, mediaRoot, dryRun, unlink, init);
      var os := RunOutcomes(disk, removed, mediaRoot, dryRun, unlink, products);
      assert os == before + [os[n]];
      forall i | 0 <= i < |products|
        ensures os[i] == ProductOutcome(Gone(disk, removed + RemovedBy(os[..i])), mediaRoot, dryRun, unlink, products[i])
      {
        if i < n {
          assert os[..i] == before[..i] && os[i] == before[i] && products[i] == init[i];
        } else {
          assert os[..i] == before;
        }
      }
    }
  }

  /** The loop over all candidate products, each processed in turn. */
  method ProcessProducts(driver: FileDriver, mediaRoot: string, dryRun: bool, unlink: bool, products: seq<Product>)
    returns (outcomes: seq<Outcome>)
    modifies driver
    ensures outcomes == RunOutcomes(driver.disk, old(driver.removed), mediaRoot, dryRun, unlink, products)
    ensures driver.removed == old(driver.removed) + RemovedBy(outcomes)
  {
    outcomes := [];
    for i := 0 to |products|
      invariant outcomes == RunOutcomes(driver.disk, old(driver.removed), mediaRoot, dryRun, unlink, products[..i])
      invariant driver.removed == old(driver.removed) + RemovedBy(outcomes)
    {
      assert products[..i + 1] == products[..i] + [products[i]];
      RunOutcomesSnoc(driver.disk, old(driver.removed), mediaRoot, dryRun, unlink, products[..i], products[i]);
      var outcome := ProcessProduct(driver, mediaRoot, dryRun, unlink, products[i]);
      RemovedBySnoc(outcomes, outcome);
      outcomes := outcomes + [outcome];
    }
    assert products[..|products|] == products;
  }

  /** The run over all candidate products, with the options read once. */
  method Execute(driver: FileDriver, mediaRoot: string, products: seq<Product>, unlinkOption: OptionValue, dryRunOption: OptionValue)
    returns (outcomes: seq<Outcome>)
    modifies driver
    ensures outcomes == RunOutcomes(driver.disk, old(driver.removed), mediaRoot, IsOn(dryRunOption), IsOn(unlinkOption), products)
    ensures driver.removed == old(driver.removed) + RemovedBy(outcomes)
  {
    var isUnlink := IsOn(unlinkOption);
    var isDryRun := IsOn(dryRunOption);
    outcomes := ProcessProducts(driver, mediaRoot, isDryRun, isUnlink, products);
  }

  /** A gallery entry whose file an earlier product deleted is passed over
      as missing: it is kept, and its digest is not recorded. */
  lemma DeletedFileKeptAsMissing(disk: FileSystem, removed: set<string>, mediaRoot: string, product: Product, i: nat)
    requires i < |product.gallery|
    requires ImagePath(mediaRoot, product.gallery[i].file) in removed
    ensures var env := Env(Gone(disk, removed), mediaRoot, product.image);
      !Compared(env, product.gallery[i]) && product.gallery[i] in Plan(env, product.gallery).kept
  {
    var env := Env(Gone(disk, removed), mediaRoot, product.image);
    NonRedundantKept(env, product.gallery, i);
  }

  // ---------------------------------------------------------------------
  // What a product's outcome guarantees

  /** A product is saved exactly when it is not a dry run and the scan
      removed an entry, and then with the retained gallery. */
  lemma SavedIffRemoved(fs: FileSystem, mediaRoot: string, dryRun: bool, unlink: bool, product: Product)
    ensures var o := ProductOutcome(fs, mediaRoot, dryRun, unlink, product);
      var p := Plan(Env(fs, mediaRoot, product.image), product.gallery);
      && (o.saved.Some? <==> !dryRun && p.filePaths != [])
      && (o.saved.Some? ==> o.saved.value == p.kept)
  {
    PlanMatchesReference(Env(fs, mediaRoot, product.image), product.gallery);
  }

  /** A dry run saves nothing and deletes nothing; it may still report
      deletions, exactly for the collected regular files, when unlink is on. */
  lemma DryRunChangesNothing(fs: FileSystem, mediaRoot: string, unlink: bool, product: Product)
    ensures var o := ProductOutcome(fs, mediaRoot, true, unlink, product);
      && o.saved == None
      && (forall p :: Unlinked(p) !in o.events)
      && (forall p :: Reported(p) in o.events <==>
            unlink && product.gallery != [] &&
            p in Plan(Env(fs, mediaRoot, product.image), product.gallery).filePaths && fs.isFile(p))
  {
    var env := Env(fs, mediaRoot, product.image);
    PlanMatchesReference(env, product.gallery);
    if product.gallery != [] {
      var pl := Plan(env, product.gallery);
      CleanupTraceMembership(fs, Gate(true, unlink, pl.shouldSave), pl.filePaths);
    }
  }

  /** A file is unlinked only in an applied run with unlink on, only after
      the product's gallery is saved without it, only if the scan collected
      it from a redundant entry, and only if it is a regular file. */
  lemma UnlinkedOnlyRedundant(fs: FileSystem, mediaRoot: string, dryRun: bool, unlink: bool, product: Product, f: string)
    requires Unlinked(f) in ProductOutcome(fs, mediaRoot, dryRun, unlink, product).events
    ensures !dryRun && unlink && fs.isFile(f) && !fs.deleteFails(f)
    ensures ProductOutcome(fs, mediaRoot, dryRun, unlink, product).saved.Some?
    ensures exists i :: 0 <= i < |product.gallery| && Redundant(Env(fs, mediaRoot, product.image), product.gallery, i)
                      && PathOf(Env(fs, mediaRoot, product.image), product.gallery[i]) == f
  {
    var env := Env(fs, mediaRoot, product.image);
    var pl := Plan(env, product.gallery);
    CleanupTraceMembership(fs, Gate(dryRun, unlink, pl.shouldSave), pl.filePaths);
    CollectedPathsAreRedundant(env, product.gallery);
  }

  /** Within one product no file is unlinked twice, and in an applied run
      with unlink on no event occurs twice, however often the gallery names
      the same file. */
  lemma ProductUnlinksOnce(fs: FileSystem, mediaRoot: string, dryRun: bool, unlink: bool, product: Product)
    ensures UnlinksOnce(ProductOutcome(fs, mediaRoot, dryRun, unlink, product).events)
    ensures !dryRun && unlink ==> NoRepeats(ProductOutcome(fs, mediaRoot, dryRun, unlink, product).events)
  {
    if product.gallery != [] {
      var pl := Plan(Env(fs, mediaRoot, product.image), product.gallery);
      PlanMatchesReference(Env(fs, mediaRoot, product.image), product.gallery);
      CleanupTraceOnce(fs, Gate(dryRun, unlink, pl.shouldSave), pl.filePaths);
    }
  }

  /** Left at the default options, no product is saved and no file is
      unlinked, whatever the galleries, so the storage is left as it was. */
  lemma DefaultRunChangesNothing(disk: FileSystem, removed: set<string>, mediaRoot: string, products: seq<Product>)
    ensures var os := RunOutcomes(disk, removed, mediaRoot, IsOn(DryRunDefault), IsOn(UnlinkDefault), products);
      && (forall i :: 0 <= i < |os| ==> os[i] == Outcome(None, []))
      && RemovedBy(os) == {}
  {
    var os := RunOutcomes(disk, removed, mediaRoot, IsOn(DryRunDefault), IsOn(UnlinkDefault), products);
    RunOutcomesEach(disk, removed, mediaRoot, IsOn(DryRunDefault), IsOn(UnlinkDefault), products);
    forall i | 0 <= i < |os|
      ensures os[i] == Outcome(None, [])
    {
      var fs := Gone(disk, removed + RemovedBy(os[..i]));
      var env := Env(fs, mediaRoot, products[i].image);
      SilentCleanup(fs, Gate(true, false, Plan(env, products[i].gallery).shouldSave), Plan(env, products[i].gallery).filePaths);
    }
  }

  /** Across the run no file is unlinked twice: once a product's deletion
      loop deletes a file, every later product sees it as missing, so its
      entries naming that file are kept and its loop does not touch it. */
  lemma RunUnlinksEachFileOnce(disk: FileSystem, removed: set<string>, mediaRoot: string, dryRun: bool, unlink: bool,
                               products: seq<Product>, i: nat, j: nat, f: string)
    requires i < j < |products|
    requires Unlinked(f) in RunOutcomes(disk, removed, mediaRoot, dryRun, unlink, products)[i].events
    ensures Unlinked(f) !in RunOutcomes(disk, removed, mediaRoot, dryRun, unlink, products)[j].events
    ensures var o := RunOutcomes(disk, removed, mediaRoot, dryRun, unlink, products)[j];
      forall k :: 0 <= k < |products[j].gallery| && ImagePath(mediaRoot, products[j].gallery[k].file) == f ==>
        (o.saved.Some? ==> products[j].gallery[k] in o.saved.value)
  {
    var os := RunOutcomes(disk, removed, mediaRoot, dryRun, unlink, products);
    RunOutcomesEach(disk, removed, mediaRoot, dryRun, unlink, products);
    assert os[..j][i] == os[i];
    assert f in RemovedBy(os[..j]);
    var fs := Gone(disk, removed + RemovedBy(os[..j]));
    assert !fs.isFile(f);
    if products[j].gallery != [] {
      var env := Env(fs, mediaRoot, products[j].image);
      var pl := Plan(env, products[j].gallery);
      CleanupTraceMembership(fs, Gate(dryRun, unlink, pl.shouldSave), pl.filePaths);
      forall k | 0 <= k < |products[j].gallery| && ImagePath(mediaRoot, products[j].gallery[k].file) == f
        ensures products[j].gallery[k] in pl.kept
      {
        DeletedFileKeptAsMissing(disk, removed + RemovedBy(os[..j]), mediaRoot, products[j], k);
      }
    }
  }

  // ---------------------------------------------------------------------
  // Deleting a file that a retained entry still uses

  /** As written, the deletion loop works on every collected path, even one
      that a retained entry refers to: two unpinned entries naming the same
      existing file keep the first and then delete its file in an applied run
      with unlink on. */
  lemma SameFileTwiceDeletesKeptFile(fs: FileSystem, mediaRoot: string, image: string, e: Entry)
    requires e.file != image && !Pinned(e)
    requires fs.isExists(ImagePath(mediaRoot, e.file)) && fs.isFile(ImagePath(mediaRoot, e.file))
    requires !fs.deleteFails(ImagePath(mediaRoot, e.file))
    requires !(fs.isExists(ImagePath(mediaRoot, image)) &&
               fs.md5(ImagePath(mediaRoot, image)) == fs.md5(ImagePath(mediaRoot, e.file)))
    ensures var o := ProductOutcome(fs, mediaRoot, false, true, Product("", image, [e, e]));
      && o.saved == Some([e])
      && Unlinked(ImagePath(mediaRoot, e.file)) in o.events
  {
    var env := Env(fs, mediaRoot, image);
    var g := [e, e];
    LaterDuplicateRemoved(env, g, 0, 1);
    FirstOccurrenceKept(env, g, 0);
    PlanMatchesReference(env, g);
    assert Survivors(env, g, 1) == [e];
    assert Survivors(env, g, 2) == [e];
    var pl := Plan(env, g);
    CleanupTraceMembership(fs, Gate(false, true, pl.shouldSave), pl.filePaths);
  }

  /** The collected paths that no retained entry refers to: the files a
      removal really leaves orphaned. */
  function Orphaned(env: Env, kept: seq<Entry>, filePaths: seq<string>): (r: seq<string>)
    ensures forall p :: p in r <==> p in filePaths && forall e :: e in kept ==> PathOf(env, e) != p
    ensures |r| <= |filePaths|
    decreases |filePaths|
  {
    if filePaths == [] then []
    else
      var last := filePaths[|filePaths| - 1];
      var init := Orphaned(env, kept, filePaths[..|filePaths| - 1]);
      assert filePaths == filePaths[..|filePaths| - 1] + [last];
      if exists e :: e in kept && PathOf(env, e) == last then init else init + [last]
  }

  /** One product processed with the deletion loop restricted to orphaned files. */
  function SafeProductOutcome(fs: FileSystem, mediaRoot: string, dryRun: bool, unlink: bool, product: Product): Outcome
  {
    if product.gallery == [] then Outcome(None, [])
    else
      var env := Env(fs, mediaRoot, product.image);
      var p := Plan(env, product.gallery);
      var fx := Gate(dryRun, unlink, p.shouldSave);
      Outcome(if fx.save then Some(p.kept) else None, CleanupTrace(fs, fx, Orphaned(env, p.kept, p.filePaths)))
  }

  /** With the restriction, a file is unlinked only when the saved gallery no
      longer refers to it, and only if a redundant entry referred to it. */
  lemma SafeOutcomeKeepsUsedFiles(fs: FileSystem, mediaRoot: string, dryRun: bool, unlink: bool, product: Product, f: string)
    requires Unlinked(f) in SafeProductOutcome(fs, mediaRoot, dryRun, unlink, product).events
    ensures var o := SafeProductOutcome(fs, mediaRoot, dryRun, unlink, product);
      && o.saved.Some?
      && (forall e :: e in o.saved.value ==> PathOf(Env(fs, mediaRoot, product.image), e) != f)
      && exists i :: 0 <= i < |product.gallery| && Redundant(Env(fs, mediaRoot, product.image), product.gallery, i)
                   && PathOf(Env(fs, mediaRoot, product.image), product.gallery[i]) == f
  {
    var env := Env(fs, mediaRoot, product.image);
    var pl := Plan(env, product.gallery);
    CleanupTraceMembership(fs, Gate(dryRun, unlink, pl.shouldSave), Orphaned(env, pl.kept, pl.filePaths));
    CollectedPathsAreRedundant(env, product.gallery);
  }
}
