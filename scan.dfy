/** The duplicate decision for one product, as pure functions.

    Two descriptions of the same decision live here:
    - the operational one, `Plan`, which folds `Step` over the gallery in
      order with a growing sequence of seen digests, as the command's loop does;
    - the declarative one, `Redundant`, which says of each position directly
      whether the entry there is dropped, with `Survivors` and `CollectedPaths`
      collecting the retained entries and the paths of the dropped ones.
    ScanProperties proves that the two agree. */
module DuplicateScan {
  import opened MediaGallery

  /** What the scan of one product depends on besides its gallery. */
  datatype Env = Env(fs: FileSystem, mediaRoot: string, baseImage: string)

  function PathOf(env: Env, e: Entry): string
  {
    ImagePath(env.mediaRoot, e.file)
  }

  function DigestOf(env: Env, e: Entry): string
  {
    env.fs.md5(PathOf(env, e))
  }

  function BasePath(env: Env): string
  {
    ImagePath(env.mediaRoot, env.baseImage)
  }

  /** The seen digests before any gallery entry is examined: the base
      image's digest if its file exists, and nothing otherwise. */
  function Seed(env: Env): (seen: seq<string>)
    ensures seen != [] <==> env.fs.isExists(BasePath(env))
    ensures seen != [] ==> seen == [env.fs.md5(BasePath(env))]
  {
    if env.fs.isExists(BasePath(env)) then [env.fs.md5(BasePath(env))] else []
  }

  /** An entry takes part in the comparison when it is not the base image
      and its file exists; every other entry is passed over untouched. */
  predicate Compared(env: Env, e: Entry)
  {
    e.file != env.baseImage && env.fs.isExists(PathOf(env, e))
  }

  /** The five ways the loop can treat an entry. */
  datatype Verdict = SkipBase | SkipMissing | KeepPinned | Remove | KeepFirst

  function Judge(env: Env, seen: seq<string>, e: Entry): (v: Verdict)
    ensures (v == SkipBase || v == SkipMissing) <==> !Compared(env, e)
    ensures v == Remove <==> Compared(env, e) && !Pinned(e) && DigestOf(env, e) in seen
    ensures v == KeepPinned <==> Compared(env, e) && Pinned(e) && DigestOf(env, e) in seen
    ensures v == KeepFirst <==> Compared(env, e) && DigestOf(env, e) !in seen
  {
    if e.file == env.baseImage then SkipBase
    else if !env.fs.isExists(PathOf(env, e)) then SkipMissing
    else if DigestOf(env, e) in seen then
      if |e.types| > 0 then KeepPinned else Remove
    else KeepFirst
  }

  /** The state the loop carries from entry to entry: the seen digests
      (`$md5Values`), the retained entries (`$gallery` after the unsets),
      the full paths of the removed files (`$filePaths`), and `$shouldSave`. */
  datatype Scan = Scan(seen: seq<string>, kept: seq<Entry>, filePaths: seq<string>, shouldSave: bool)

  function Start(env: Env): Scan
  {
    Scan(Seed(env), [], [], false)
  }

  /** One iteration of the loop. */
  function Step(env: Env, s: Scan, e: Entry): (r: Scan)
    // skipped entries (base image, missing file) are kept and change nothing else
    ensures !Compared(env, e) ==> r == s.(kept := s.kept + [e])
    // a pinned entry is always kept and never adds a removed path
    ensures Pinned(e) ==> r.kept == s.kept + [e] && r.filePaths == s.filePaths && r.shouldSave == s.shouldSave
    // a pinned entry whose digest was seen leaves the seen digests as they were
    ensures Pinned(e) && DigestOf(env, e) in s.seen ==> r.seen == s.seen
    // an unpinned compared entry whose digest was seen is dropped, its path recorded
    ensures Compared(env, e) && !Pinned(e) && DigestOf(env, e) in s.seen ==>
      r == s.(filePaths := s.filePaths + [PathOf(env, e)], shouldSave := true)
    // a compared entry with a new digest is kept and its digest becomes seen
    ensures Compared(env, e) && DigestOf(env, e) !in s.seen ==>
      r == s.(seen := s.seen + [DigestOf(env, e)], kept := s.kept + [e])
  {
    match Judge(env, s.seen, e)
    case Remove => s.(filePaths := s.filePaths + [PathOf(env, e)], shouldSave := true)
    case KeepFirst => s.(seen := s.seen + [DigestOf(env, e)], kept := s.kept + [e])
    case _ => s.(kept := s.kept + [e])
  }

  /** The loop run from state `s` over the entries of `g`, in order. */
  function ScanFrom(env: Env, s: Scan, g: seq<Entry>): Scan
    decreases |g|
  {
    if g == [] then s else Step(env, ScanFrom(env, s, g[..|g| - 1]), g[|g| - 1])
  }

  /** The outcome of the loop for one product. */
  function Plan(env: Env, g: seq<Entry>): Scan
  {
    ScanFrom(env, Start(env), g)
  }

  // ---------------------------------------------------------------------
  // The declarative reference

  /** The digests that count as seen when position `i` is reached: the base
      image's, if its file exists, and those of the compared entries before `i`. */
  function SeenBefore(env: Env, g: seq<Entry>, i: nat): set<string>
    requires i <= |g|
  {
    (set d | d in Seed(env)) + (set j | 0 <= j < i && Compared(env, g[j]) :: DigestOf(env, g[j]))
  }

  /** The entry at position `i` is dropped: it is compared, unpinned, and
      its content was already seen. */
  predicate Redundant(env: Env, g: seq<Entry>, i: nat)
    requires i < |g|
  {
    Compared(env, g[i]) && !Pinned(g[i]) && DigestOf(env, g[i]) in SeenBefore(env, g, i)
  }

  /** The first `n` entries with the redundant ones left out, in their order. */
  function Survivors(env: Env, g: seq<Entry>, n: nat): seq<Entry>
    requires n <= |g|
  {
    if n == 0 then []
    else Survivors(env, g, n - 1) + (if Redundant(env, g, n - 1) then [] else [g[n - 1]])
  }

  /** The full paths of the redundant entries among the first `n`, in order. */
  function CollectedPaths(env: Env, g: seq<Entry>, n: nat): seq<string>
    requires n <= |g|
  {
    if n == 0 then []
    else CollectedPaths(env, g, n - 1) + (if Redundant(env, g, n - 1) then [PathOf(env, g[n - 1])] else [])
  }
}
