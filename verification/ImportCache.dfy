/** The cache of imported scanout buffers: least recently used out, and everything dropped
    at the start of each window of queued frames. */
module ImportCache {
  import opened Wrappers
  import opened Arith

  /** The key of the cache: two grabs of one scanout buffer agree in it. */
  datatype BufKey = BufKey(fbId: nat, width: nat, height: nat, stride: nat, format: nat, modifier: nat)

  /** An import of the buffer a key named when `at` frames had been queued. */
  datatype Surface = Surface(serial: nat, key: BufKey, at: nat)

  datatype Entry = Entry(key: BufKey, surface: Surface)

  const IMPORT_CACHE := 4
  const REIMPORT_EVERY_S := 2

  function Period(fps: nat): nat {
    REIMPORT_EVERY_S * fps
  }

  /** Where a key is cached. */
  function IndexOf(imports: seq<Entry>, key: BufKey): (i: nat)
    ensures i <= |imports| && (i < |imports| ==> imports[i].key == key)
    ensures forall j :: 0 <= j < i ==> imports[j].key != key
  {
    if imports == [] || imports[0].key == key then 0 else 1 + IndexOf(imports[1..], key)
  }

  /** A sequence without the element at an index. */
  function Without<T>(s: seq<T>, i: nat): seq<T> {
    if i < |s| then seq(|s| - 1, k requires 0 <= k < |s| - 1 => if k < i then s[k] else s[k + 1]) else s
  }

  function Truncated<T>(s: seq<T>, n: nat): seq<T> {
    if n < |s| then s[..n] else s
  }

  /** What is left of the cache when a frame is grabbed. */
  function Base(imports: seq<Entry>, queued: nat, fps: nat): seq<Entry>
    requires fps > 0
  {
    if queued % Period(fps) == 0 then [] else imports
  }

  /** The cache and the surface after a grab of `key`; `made` is what importing it anew
      would give, if it works. */
  function Import(imports: seq<Entry>, queued: nat, fps: nat, key: BufKey, made: Option<Surface>): (seq<Entry>, Option<Surface>)
    requires fps > 0
  {
    var base := Base(imports, queued, fps);
    var i := IndexOf(base, key);
    if i < |base| then ([base[i]] + Without(base, i), Some(base[i].surface))
    else if made.None? then (base, None)
    else (Truncated([Entry(key, made.value)] + base, IMPORT_CACHE), made)
  }

  /** No key twice, and every surface imported for its key. */
  predicate CacheOk(imports: seq<Entry>) {
    && |imports| <= 4
    && (forall i, j :: 0 <= i < j < |imports| ==> imports[i].key != imports[j].key)
    && (forall i :: 0 <= i < |imports| ==> imports[i].surface.key == imports[i].key)
  }

  /** Every import is of the window of `queued`. */
  predicate Current(imports: seq<Entry>, queued: nat, fps: nat)
    requires fps > 0
  {
    forall i :: 0 <= i < |imports| ==> imports[i].surface.at / Period(fps) == queued / Period(fps)
  }

  lemma HitKeeps(base: seq<Entry>, i: nat)
    requires CacheOk(base) && i < |base|
    ensures CacheOk([base[i]] + Without(base, i))
  {
    var after := [base[i]] + Without(base, i);
    forall j | 0 <= j < |after| ensures after[j] == base[if j == 0 then i else if j <= i then j - 1 else j] {
    }
  }

  lemma MissKeeps(base: seq<Entry>, e: Entry)
    requires CacheOk(base) && e.surface.key == e.key && forall j :: 0 <= j < |base| ==> base[j].key != e.key
    ensures CacheOk(Truncated([e] + base, IMPORT_CACHE))
  {
    var after := Truncated([e] + base, IMPORT_CACHE);
    forall j | 0 < j < |after| ensures after[j] == base[j - 1] {
    }
  }

  lemma ImportKeeps(imports: seq<Entry>, queued: nat, fps: nat, key: BufKey, made: Option<Surface>)
    requires fps > 0 && CacheOk(imports) && (made.Some? ==> made.value.key == key)
    ensures var (after, s) := Import(imports, queued, fps, key, made);
      CacheOk(after) && (s.Some? ==> s.value.key == key && after != [] && after[0] == Entry(key, s.value))
  {
    var base := Base(imports, queued, fps);
    var i := IndexOf(base, key);
    if i < |base| {
      HitKeeps(base, i);
    } else if made.Some? {
      MissKeeps(base, Entry(key, made.value));
    }
  }

  /** A grab at a window's first frame, or one of a cache of this window, gives an import of
      this window. */
  lemma ImportCurrent(imports: seq<Entry>, queued: nat, fps: nat, key: BufKey, made: Option<Surface>)
    requires fps > 0 && (made.Some? ==> made.value.at == queued)
    requires queued % Period(fps) == 0 || Current(imports, queued, fps)
    ensures var (after, s) := Import(imports, queued, fps, key, made);
      Current(after, queued, fps) && (s.Some? ==> s.value.at / Period(fps) == queued / Period(fps))
  {
  }

  // ---------- what the cache holds ----------

  /** Keys by last use, most recent first. */
  function Recent(uses: seq<BufKey>): seq<BufKey> {
    if uses == [] then []
    else
      var n := |uses| - 1;
      var before := Recent(uses[..n]);
      [uses[n]] + Dropped(before, uses[n])
  }

  function Dropped(s: seq<BufKey>, key: BufKey): seq<BufKey> {
    if s == [] then [] else if s[0] == key then Dropped(s[1..], key) else [s[0]] + Dropped(s[1..], key)
  }

  function Keys(imports: seq<Entry>): seq<BufKey> {
    seq(|imports|, i requires 0 <= i < |imports| => imports[i].key)
  }

  predicate Distinct(s: seq<BufKey>) {
    forall i, j :: 0 <= i < j < |s| ==> s[i] != s[j]
  }

  /** The cache holds the last distinct buffers used, in that order. */
  predicate Holds(imports: seq<Entry>, uses: seq<BufKey>) {
    Keys(imports) == Truncated(Recent(uses), 4)
  }

  lemma WithoutFirst<T>(s: seq<T>)
    requires s != []
    ensures Without(s, 0) == s[1..]
  {
  }

  lemma WithoutRest<T>(s: seq<T>, i: nat)
    requires 0 < i < |s|
    ensures Without(s, i) == [s[0]] + Without(s[1..], i - 1)
  {
  }

  lemma {:induction false} DroppedAt(s: seq<BufKey>, key: BufKey, i: nat)
    requires Distinct(s) && i < |s| && s[i] == key
    ensures Dropped(s, key) == Without(s, i)
  {
    if i == 0 {
      DroppedNone(s[1..], key);
      WithoutFirst(s);
    } else {
      DroppedAt(s[1..], key, i - 1);
      WithoutRest(s, i);
    }
  }

  lemma {:induction false} DroppedNone(s: seq<BufKey>, key: BufKey)
    requires forall i :: 0 <= i < |s| ==> s[i] != key
    ensures Dropped(s, key) == s
  {
    if s != [] {
      DroppedNone(s[1..], key);
    }
  }

  lemma {:induction false} DroppedDistinct(s: seq<BufKey>, key: BufKey)
    requires Distinct(s)
    ensures Distinct(Dropped(s, key)) && forall i :: 0 <= i < |Dropped(s, key)| ==> Dropped(s, key)[i] != key
  {
    if i :| 0 <= i < |s| && s[i] == key {
      DroppedAt(s, key, i);
    } else {
      DroppedNone(s, key);
    }
  }

  lemma {:induction false} RecentDistinct(uses: seq<BufKey>)
    ensures Distinct(Recent(uses))
  {
    if uses != [] {
      var n := |uses| - 1;
      RecentDistinct(uses[..n]);
      DroppedDistinct(Recent(uses[..n]), uses[n]);
    }
  }

  /** Truncating before or after a use comes to the same. */
  lemma UseTruncated(s: seq<BufKey>, key: BufKey, n: nat)
    requires Distinct(s) && n > 0
    ensures Truncated([key] + Dropped(s, key), n) == Truncated([key] + Dropped(Truncated(s, n), key), n)
  {
    if i :| 0 <= i < |s| && s[i] == key {
      UsedTruncated(s, key, n, i);
    } else {
      DroppedNone(s, key);
      DroppedNone(Truncated(s, n), key);
    }
  }

  lemma CutBehind<T>(s: seq<T>, x: T, n: nat, i: nat)
    requires i < |s| && i < n
    ensures Truncated([x] + Without(s, i), n) == Truncated([x] + Without(Truncated(s, n), i), n)
  {
  }

  lemma CutBefore<T>(s: seq<T>, x: T, n: nat, i: nat)
    requires n <= i < |s| && n > 0
    ensures Truncated([x] + Without(s, i), n) == Truncated([x] + Truncated(s, n), n)
  {
    assert Without(s, i)[..n] == s[..n];
    assert ([x] + Without(s, i))[..n] == ([x] + s[..n])[..n];
  }

  lemma UsedTruncated(s: seq<BufKey>, key: BufKey, n: nat, i: nat)
    requires Distinct(s) && n > 0 && i < |s| && s[i] == key
    ensures Truncated([key] + Dropped(s, key), n) == Truncated([key] + Dropped(Truncated(s, n), key), n)
  {
    DroppedAt(s, key, i);
    if i < n {
      DroppedAt(Truncated(s, n), key, i);
      CutBehind(s, key, n, i);
    } else {
      DroppedNone(Truncated(s, n), key);
      CutBefore(s, key, n, i);
    }
  }

  /** The cache refines the history of uses since it was last dropped. */
  lemma ImportRefines(imports: seq<Entry>, uses: seq<BufKey>, queued: nat, fps: nat, key: BufKey, made: Option<Surface>)
    requires fps > 0 && CacheOk(imports) && Holds(imports, uses)
    ensures var (after, s) := Import(imports, queued, fps, key, made);
      var since := if queued % Period(fps) == 0 then [] else uses;
      Holds(after, if s.Some? then since + [key] else since)
  {
    var since := if queued % Period(fps) == 0 then [] else uses;
    var base := Base(imports, queued, fps);
    var (after, s) := Import(imports, queued, fps, key, made);
    assert Holds(base, since);
    if s.Some? {
      RecentDistinct(since);
      assert (since + [key])[..|since|] == since;
      UseTruncated(Recent(since), key, IMPORT_CACHE);
      KeysAfter(base, key, made, after);
    }
  }

  lemma KeysMoved(base: seq<Entry>, i: nat)
    requires i < |base|
    ensures Keys([base[i]] + Without(base, i)) == [base[i].key] + Without(Keys(base), i)
  {
  }

  lemma KeysNew(base: seq<Entry>, e: Entry, n: nat)
    ensures Keys(Truncated([e] + base, n)) == Truncated([e.key] + Keys(base), n)
  {
  }

  lemma KeysAfter(base: seq<Entry>, key: BufKey, made: Option<Surface>, after: seq<Entry>)
    requires CacheOk(base)
    requires var i := IndexOf(base, key);
      after == if i < |base| then [base[i]] + Without(base, i)
        else if made.Some? then Truncated([Entry(key, made.value)] + base, IMPORT_CACHE) else base
    requires IndexOf(base, key) < |base| || made.Some?
    ensures Keys(after) == Truncated([key] + Dropped(Keys(base), key), IMPORT_CACHE)
  {
    var i := IndexOf(base, key);
    if i < |base| {
      DroppedAt(Keys(base), key, i);
      KeysMoved(base, i);
    } else {
      DroppedNone(Keys(base), key);
      KeysNew(base, Entry(key, made.value), IMPORT_CACHE);
    }
  }

  // ---------- a run of pushes ----------

  /** The cache and the frames queued so far. */
  datatype Cache = Cache(imports: seq<Entry>, queued: nat)

  /** One push: the grabbed buffer and the cursor grabbed with it, the serial of a new import
      if that works, and whether the frame could be queued. */
  datatype Pushed = Pushed(shot: Option<BufKey>, cursor: Option<nat>, made: Option<nat>, sent: bool)

  function Made(serial: Option<nat>, key: BufKey, queued: nat): Option<Surface> {
    if serial.Some? then Some(Surface(serial.value, key, queued)) else None
  }

  /** What a push of a grab finds or imports. */
  function Grabbed(c: Cache, fps: nat, key: BufKey, made: Option<nat>): (seq<Entry>, Option<Surface>)
    requires fps > 0
  {
    Import(c.imports, c.queued, fps, key, Made(made, key, c.queued))
  }

  function Next(c: Cache, fps: nat, e: Pushed): Cache
    requires fps > 0
  {
    match e.shot
    case None => c.(queued := if e.sent then c.queued + 1 else c.queued)
    case Some(key) =>
      var (after, s) := Grabbed(c, fps, key, e.made);
      Cache(after, if e.sent && s.Some? then c.queued + 1 else c.queued)
  }

  function CacheAt(fps: nat, es: seq<Pushed>, n: nat): Cache
    requires fps > 0 && n <= |es|
  {
    if n == 0 then Cache([], 0) else Next(CacheAt(fps, es, n - 1), fps, es[n - 1])
  }

  /** Later pushes change nothing about earlier ones. */
  lemma {:induction false} SameCache(fps: nat, es: seq<Pushed>, longer: seq<Pushed>, n: nat, c: Cache)
    requires fps > 0 && n <= |es| <= |longer| && (forall k :: 0 <= k < n ==> longer[k] == es[k]) && c == CacheAt(fps, es, n)
    ensures CacheAt(fps, longer, n) == c
  {
    if n > 0 {
      SameCache(fps, es, longer, n - 1, CacheAt(fps, es, n - 1));
      CacheStep(fps, longer, n);
      CacheStep(fps, es, n);
    }
  }

  lemma CacheStep(fps: nat, es: seq<Pushed>, n: nat)
    requires fps > 0 && 0 < n <= |es|
    ensures CacheAt(fps, es, n) == Next(CacheAt(fps, es, n - 1), fps, es[n - 1])
  {
  }

  /** The push that began the window push `n` is in. */
  function StartOf(fps: nat, es: seq<Pushed>, n: nat): (b: nat)
    requires fps > 0 && n <= |es|
    ensures b <= n
  {
    if n == 0 || (CacheAt(fps, es, n).queued % Period(fps) == 0 && CacheAt(fps, es, n - 1).queued != CacheAt(fps, es, n).queued)
    then n else StartOf(fps, es, n - 1)
  }

  /** How many frames had been queued when that window began. */
  function WindowOf(fps: nat, es: seq<Pushed>, n: nat): nat
    requires fps > 0 && n <= |es|
  {
    CacheAt(fps, es, StartOf(fps, es, n)).queued
  }

  lemma NextWindow(q: nat, w: nat, p: nat)
    requires p > 0 && w % p == 0 && w <= q < w + p && (q + 1) % p != 0
    ensures q + 1 < w + p
  {
    if q + 1 == w + p {
      Quotient(q + 1, p, w / p + 1, 0);
    }
  }

  predicate InWindow(q: nat, w: nat, p: nat)
    requires p > 0
  {
    w % p == 0 && w <= q < w + p
  }

  lemma InNext(q: nat, q': nat, w: nat, p: nat)
    requires p > 0 && InWindow(q, w, p) && q <= q' <= q + 1 && (q' % p == 0 ==> q' == q)
    ensures InWindow(q', w, p)
  {
    if q' != q {
      NextWindow(q, w, p);
    }
  }

  lemma NextQueued(c: Cache, fps: nat, e: Pushed)
    requires fps > 0
    ensures c.queued <= Next(c, fps, e).queued <= c.queued + 1
  {
  }

  lemma SameStart(fps: nat, es: seq<Pushed>, n: nat)
    requires fps > 0 && 0 < n <= |es| && StartOf(fps, es, n) != n
    ensures StartOf(fps, es, n - 1) == StartOf(fps, es, n) && WindowOf(fps, es, n - 1) == WindowOf(fps, es, n)
    ensures CacheAt(fps, es, n).queued % Period(fps) == 0 ==> CacheAt(fps, es, n).queued == CacheAt(fps, es, n - 1).queued
    ensures CacheAt(fps, es, n - 1).queued <= CacheAt(fps, es, n).queued <= CacheAt(fps, es, n - 1).queued + 1
  {
    NextQueued(CacheAt(fps, es, n - 1), fps, es[n - 1]);
  }

  lemma StartsWindow(fps: nat, es: seq<Pushed>, n: nat)
    requires fps > 0 && n <= |es| && StartOf(fps, es, n) == n
    ensures WindowOf(fps, es, n) == CacheAt(fps, es, n).queued && WindowOf(fps, es, n) % Period(fps) == 0
  {
  }

  lemma {:induction false} WindowHolds(fps: nat, es: seq<Pushed>, n: nat, q: nat, w: nat)
    requires fps > 0 && n <= |es| && q == CacheAt(fps, es, n).queued && w == WindowOf(fps, es, n)
    ensures InWindow(q, w, Period(fps))
  {
    if StartOf(fps, es, n) == n {
      StartsWindow(fps, es, n);
    } else {
      SameStart(fps, es, n);
      var before := CacheAt(fps, es, n - 1).queued;
      WindowHolds(fps, es, n - 1, before, w);
      InNext(before, q, w, Period(fps));
    }
  }

  /** A cached import of the key from before frame `w`. */
  predicate OldIn(imports: seq<Entry>, key: BufKey, w: nat) {
    exists i :: 0 <= i < |imports| && imports[i].key == key && imports[i].surface.at < w
  }

  /** No cached import is from before frame `w`. */
  predicate AllNew(imports: seq<Entry>, w: nat) {
    forall i :: 0 <= i < |imports| ==> imports[i].surface.at >= w
  }

  predicate Cached(imports: seq<Entry>, key: BufKey) {
    exists i :: 0 <= i < |imports| && imports[i].key == key
  }

  /** In a window only its first frame's grab drops the imports. */
  predicate Drops(fps: nat, es: seq<Pushed>, n: nat)
    requires fps > 0 && n < |es|
  {
    CacheAt(fps, es, n).queued % Period(fps) == 0 && es[n].shot.Some?
  }

  /** None of the pushes from `b` up to `n` drops the imports. */
  predicate Undropped(fps: nat, es: seq<Pushed>, b: nat, n: nat)
    requires fps > 0 && n <= |es|
  {
    forall m :: b <= m < n ==> !Drops(fps, es, m)
  }

  /** The key was cached before push `n`. */
  predicate CachedAt(fps: nat, es: seq<Pushed>, n: nat, key: BufKey)
    requires fps > 0 && n <= |es|
  {
    Cached(CacheAt(fps, es, n).imports, key)
  }

  /** The key was cached before each push from `b` to `n`. */
  predicate KeptSince(fps: nat, es: seq<Pushed>, b: nat, n: nat, key: BufKey)
    requires fps > 0 && n <= |es|
  {
    forall m :: b <= m <= n ==> CachedAt(fps, es, m, key)
  }

  /** What is cached after a push was cached before it, or is the new import of a buffer
      that was not. */
  lemma NextFrom(c: Cache, fps: nat, e: Pushed, j: nat)
    requires fps > 0 && j < |Next(c, fps, e).imports|
    ensures var a := Next(c, fps, e).imports[j];
      || (exists i :: 0 <= i < |c.imports| && c.imports[i] == a)
      || (a.surface.at == c.queued && ((c.queued % Period(fps) == 0 && e.shot.Some?) || !Cached(c.imports, a.key)))
  {
    if e.shot.Some? {
      var base := Base(c.imports, c.queued, fps);
      var i := IndexOf(base, e.shot.value);
      if 0 < j && i < |base| {
        assert base[if j <= i then j - 1 else j] == Next(c, fps, e).imports[j];
      }
    }
  }

  lemma OldNext(c: Cache, fps: nat, e: Pushed, key: BufKey, w: nat)
    requires fps > 0 && CacheOk(c.imports) && w <= c.queued
    requires c.queued % Period(fps) == 0 ==> e.shot.None?
    ensures OldIn(Next(c, fps, e).imports, key, w) <==> OldIn(c.imports, key, w) && Cached(Next(c, fps, e).imports, key)
  {
    var after := Next(c, fps, e).imports;
    if OldIn(c.imports, key, w) && Cached(after, key) {
      var j :| 0 <= j < |after| && after[j].key == key;
      NextFrom(c, fps, e, j);
      assert after[j].surface.at < w;
    }
    if OldIn(after, key, w) {
      var j :| 0 <= j < |after| && after[j].key == key && after[j].surface.at < w;
      NextFrom(c, fps, e, j);
    }
  }

  lemma NewNext(c: Cache, fps: nat, e: Pushed, w: nat)
    requires fps > 0 && w <= c.queued
    requires AllNew(c.imports, w) || (c.queued % Period(fps) == 0 && e.shot.Some?)
    ensures AllNew(Next(c, fps, e).imports, w)
  {
  }

  lemma NextOk(c: Cache, fps: nat, e: Pushed)
    requires fps > 0 && CacheOk(c.imports)
    ensures CacheOk(Next(c, fps, e).imports)
  {
    if e.shot.Some? {
      ImportKeeps(c.imports, c.queued, fps, e.shot.value, Made(e.made, e.shot.value, c.queued));
    }
  }

  lemma {:induction false} RunCacheOk(fps: nat, es: seq<Pushed>, n: nat, c: Cache)
    requires fps > 0 && n <= |es| && c == CacheAt(fps, es, n)
    ensures CacheOk(c.imports)
  {
    if n > 0 {
      var before := CacheAt(fps, es, n - 1);
      RunCacheOk(fps, es, n - 1, before);
      NextOk(before, fps, es[n - 1]);
    }
  }

  predicate MadeBy(imports: seq<Entry>, queued: nat) {
    forall i :: 0 <= i < |imports| ==> imports[i].surface.at <= queued
  }

  lemma NextMadeBy(c: Cache, fps: nat, e: Pushed)
    requires fps > 0 && MadeBy(c.imports, c.queued)
    ensures MadeBy(Next(c, fps, e).imports, c.queued) && c.queued <= Next(c, fps, e).queued
  {
    forall j | 0 <= j < |Next(c, fps, e).imports| ensures Next(c, fps, e).imports[j].surface.at <= c.queued {
      NextFrom(c, fps, e, j);
    }
  }

  lemma {:induction false} ImportedBefore(fps: nat, es: seq<Pushed>, n: nat)
    requires fps > 0 && n < |es|
    ensures MadeBy(CacheAt(fps, es, n + 1).imports, CacheAt(fps, es, n).queued)
    ensures MadeBy(CacheAt(fps, es, n).imports, CacheAt(fps, es, n).queued)
  {
    if n > 0 {
      ImportedBefore(fps, es, n - 1);
      NextMadeBy(CacheAt(fps, es, n - 1), fps, es[n - 1]);
    }
    NextMadeBy(CacheAt(fps, es, n), fps, es[n]);
  }

  predicate OldOrNot(fps: nat, es: seq<Pushed>, b: nat, w: nat, n: nat, c: Cache, key: BufKey)
    requires fps > 0 && n <= |es|
  {
    && (OldIn(c.imports, key, w) <==> Undropped(fps, es, b, n) && KeptSince(fps, es, b, n, key))
    && (!Undropped(fps, es, b, n) ==> AllNew(c.imports, w))
  }

  lemma UndroppedMore(fps: nat, es: seq<Pushed>, b: nat, n: nat)
    requires fps > 0 && b <= n < |es|
    ensures Undropped(fps, es, b, n + 1) <==> Undropped(fps, es, b, n) && !Drops(fps, es, n)
  {
  }

  lemma KeptMore(fps: nat, es: seq<Pushed>, b: nat, n: nat, key: BufKey)
    requires fps > 0 && b <= n < |es|
    ensures KeptSince(fps, es, b, n + 1, key) <==>
      KeptSince(fps, es, b, n, key) && CachedAt(fps, es, n + 1, key)
  {
  }

  /** When its window began, everything cached was from before it. */
  lemma OlderAtStart(fps: nat, es: seq<Pushed>, n: nat, c: Cache)
    requires fps > 0 && n <= |es| && StartOf(fps, es, n) == n && c == CacheAt(fps, es, n)
    ensures forall i :: 0 <= i < |c.imports| ==> c.imports[i].surface.at < c.queued
  {
    if n > 0 {
      var before := CacheAt(fps, es, n - 1);
      ImportedBefore(fps, es, n - 1);
      NextMadeBy(before, fps, es[n - 1]);
      assert MadeBy(c.imports, before.queued) && before.queued < c.queued;
    }
  }

  lemma AllOld(imports: seq<Entry>, key: BufKey, w: nat)
    requires forall i :: 0 <= i < |imports| ==> imports[i].surface.at < w
    ensures OldIn(imports, key, w) <==> Cached(imports, key)
  {
  }

  lemma AtStart(fps: nat, es: seq<Pushed>, n: nat, c: Cache, key: BufKey)
    requires fps > 0 && n <= |es| && c == CacheAt(fps, es, n)
    ensures Undropped(fps, es, n, n) && (KeptSince(fps, es, n, n, key) <==> Cached(c.imports, key))
  {
    assert CachedAt(fps, es, n, key) <==> KeptSince(fps, es, n, n, key);
  }

  lemma OldAtStart(fps: nat, es: seq<Pushed>, n: nat, w: nat, c: Cache, key: BufKey)
    requires fps > 0 && n <= |es| && StartOf(fps, es, n) == n && c == CacheAt(fps, es, n) && w == c.queued
    ensures OldOrNot(fps, es, n, w, n, c, key)
  {
    OlderAtStart(fps, es, n, c);
    AllOld(c.imports, key, w);
    AtStart(fps, es, n, c, key);
  }

  /** The state before a push that does not begin a window. */
  lemma Before(fps: nat, es: seq<Pushed>, n: nat) returns (c: Cache)
    requires fps > 0 && 0 < n <= |es| && StartOf(fps, es, n) != n
    ensures c == CacheAt(fps, es, n - 1) && CacheOk(c.imports) && WindowOf(fps, es, n) <= c.queued
    ensures StartOf(fps, es, n - 1) == StartOf(fps, es, n) && WindowOf(fps, es, n - 1) == WindowOf(fps, es, n)
  {
    c := CacheAt(fps, es, n - 1);
    SameStart(fps, es, n);
    RunCacheOk(fps, es, n - 1, c);
    WindowHolds(fps, es, n - 1, c.queued, WindowOf(fps, es, n));
  }

  lemma {:induction false} OldSince(fps: nat, es: seq<Pushed>, b: nat, w: nat, n: nat, c: Cache, key: BufKey)
    requires fps > 0 && n <= |es| && b == StartOf(fps, es, n) && w == WindowOf(fps, es, n) && c == CacheAt(fps, es, n)
    ensures OldOrNot(fps, es, b, w, n, c, key)
  {
    if b == n {
      OldAtStart(fps, es, b, w, c, key);
    } else {
      var before := Before(fps, es, n);
      OldSince(fps, es, b, w, n - 1, before, key);
      OldStep(fps, es, b, w, n, before, c, key);
    }
  }

  lemma OldStep(fps: nat, es: seq<Pushed>, b: nat, w: nat, n: nat, c: Cache, c': Cache, key: BufKey)
    requires fps > 0 && b < n <= |es| && w <= c.queued && CacheOk(c.imports)
    requires c == CacheAt(fps, es, n - 1) && c' == Next(c, fps, es[n - 1]) && OldOrNot(fps, es, b, w, n - 1, c, key)
    ensures OldOrNot(fps, es, b, w, n, c', key)
  {
    UndroppedMore(fps, es, b, n - 1);
    KeptMore(fps, es, b, n - 1, key);
    if Undropped(fps, es, b, n) {
      OldNext(c, fps, es[n - 1], key, w);
    } else {
      NewNext(c, fps, es[n - 1], w);
    }
  }

  /** A grab shows an import from before its window exactly when no grab at the window's
      first frame, itself included, dropped the imports, and its buffer has been cached
      since before the window. */
  lemma StaleExactly(fps: nat, es: seq<Pushed>, n: nat, key: BufKey)
    requires fps > 0 && n < |es| && es[n].shot == Some(key)
    ensures var s, b := Grabbed(CacheAt(fps, es, n), fps, key, es[n].made).1, StartOf(fps, es, n);
      s.Some? && s.value.at < WindowOf(fps, es, n) <==> Undropped(fps, es, b, n + 1) && KeptSince(fps, es, b, n, key)
  {
    var c, b, w := CacheAt(fps, es, n), StartOf(fps, es, n), WindowOf(fps, es, n);
    OldSince(fps, es, b, w, n, c, key);
    WindowHolds(fps, es, n, c.queued, w);
    RunCacheOk(fps, es, n, c);
    UndroppedMore(fps, es, b, n);
    GrabbedOld(c, fps, key, es[n].made, w);
  }

  lemma GrabbedOld(c: Cache, fps: nat, key: BufKey, made: Option<nat>, w: nat)
    requires fps > 0 && CacheOk(c.imports) && w <= c.queued
    ensures var s := Grabbed(c, fps, key, made).1;
      s.Some? && s.value.at < w <==> c.queued % Period(fps) != 0 && OldIn(c.imports, key, w)
  {
    var i := IndexOf(c.imports, key);
    if c.queued % Period(fps) != 0 && i < |c.imports| {
      assert c.imports[i].key == key;
    }
  }

  // ---------- the same, told by the pushes alone ----------

  /** The buffers used since the imports were last dropped, and the frames queued. */
  datatype Used = Used(keys: seq<BufKey>, queued: nat)

  /** The last four distinct buffers used. */
  function LastUsed(uses: seq<BufKey>): seq<BufKey> {
    Truncated(Recent(uses), 4)
  }

  /** A grab uses its buffer if that is one of the last four, or a new import works. */
  function NextUsed(u: Used, fps: nat, e: Pushed): Used
    requires fps > 0
  {
    match e.shot
    case None => u.(queued := if e.sent then u.queued + 1 else u.queued)
    case Some(key) =>
      var since := if u.queued % Period(fps) == 0 then [] else u.keys;
      if key in LastUsed(since) || e.made.Some? then Used(since + [key], if e.sent then u.queued + 1 else u.queued)
      else Used(since, u.queued)
  }

  function UsedAt(fps: nat, es: seq<Pushed>, n: nat): Used
    requires fps > 0 && n <= |es|
  {
    if n == 0 then Used([], 0) else NextUsed(UsedAt(fps, es, n - 1), fps, es[n - 1])
  }

  predicate Tells(u: Used, c: Cache) {
    Holds(c.imports, u.keys) && u.queued == c.queued
  }

  lemma CachedHeld(imports: seq<Entry>, uses: seq<BufKey>, key: BufKey)
    requires Holds(imports, uses)
    ensures Cached(imports, key) <==> key in LastUsed(uses)
  {
    var keys := Keys(imports);
    if Cached(imports, key) {
      var i :| 0 <= i < |imports| && imports[i].key == key;
      assert keys[i] == key;
    }
    if key in keys {
      var i :| 0 <= i < |keys| && keys[i] == key;
      assert imports[i].key == key;
    }
  }

  lemma IndexCached(imports: seq<Entry>, key: BufKey)
    ensures IndexOf(imports, key) < |imports| <==> Cached(imports, key)
  {
  }

  lemma BaseHeld(imports: seq<Entry>, u: Used, fps: nat, key: BufKey)
    requires fps > 0 && Holds(imports, u.keys)
    ensures var base, since := Base(imports, u.queued, fps), if u.queued % Period(fps) == 0 then [] else u.keys;
      IndexOf(base, key) < |base| <==> key in LastUsed(since)
  {
    var base, since := Base(imports, u.queued, fps), if u.queued % Period(fps) == 0 then [] else u.keys;
    assert Holds(base, since);
    CachedHeld(base, since, key);
    IndexCached(base, key);
  }

  lemma TellsNext(u: Used, c: Cache, fps: nat, e: Pushed)
    requires fps > 0 && Tells(u, c) && CacheOk(c.imports)
    ensures Tells(NextUsed(u, fps, e), Next(c, fps, e))
  {
    if e.shot.Some? {
      BaseHeld(c.imports, u, fps, e.shot.value);
      ImportRefines(c.imports, u.keys, c.queued, fps, e.shot.value, Made(e.made, e.shot.value, c.queued));
    }
  }

  lemma {:induction false} RunTells(fps: nat, es: seq<Pushed>, n: nat, u: Used, c: Cache)
    requires fps > 0 && n <= |es| && u == UsedAt(fps, es, n) && c == CacheAt(fps, es, n)
    ensures Tells(u, c)
  {
    if n > 0 {
      var u0, c0 := UsedAt(fps, es, n - 1), CacheAt(fps, es, n - 1);
      RunTells(fps, es, n - 1, u0, c0);
      RunCacheOk(fps, es, n - 1, c0);
      TellsNext(u0, c0, fps, es[n - 1]);
    }
  }

  /** A grab at a window's first frame. */
  predicate StartGrab(fps: nat, es: seq<Pushed>, n: nat)
    requires fps > 0 && n < |es|
  {
    es[n].shot.Some? && UsedAt(fps, es, n).queued % Period(fps) == 0
  }

  /** No grab at a window's first frame among the pushes from `b` to `n`. */
  predicate NoStartGrab(fps: nat, es: seq<Pushed>, b: nat, n: nat)
    requires fps > 0 && n < |es|
  {
    forall m :: b <= m <= n ==> !StartGrab(fps, es, m)
  }

  /** The key was one of the last four distinct buffers used before push `n`. */
  predicate LatelyUsed(fps: nat, es: seq<Pushed>, n: nat, key: BufKey)
    requires fps > 0 && n <= |es|
  {
    key in LastUsed(UsedAt(fps, es, n).keys)
  }

  /** That was so before each push from `b` to `n`. */
  predicate UsedSince(fps: nat, es: seq<Pushed>, b: nat, n: nat, key: BufKey)
    requires fps > 0 && n <= |es|
  {
    forall m :: b <= m <= n ==> LatelyUsed(fps, es, m, key)
  }

  lemma SameAt(fps: nat, es: seq<Pushed>, m: nat, key: BufKey)
    requires fps > 0 && m <= |es|
    ensures LatelyUsed(fps, es, m, key) <==> CachedAt(fps, es, m, key)
    ensures m < |es| ==> (StartGrab(fps, es, m) <==> Drops(fps, es, m))
  {
    RunTells(fps, es, m, UsedAt(fps, es, m), CacheAt(fps, es, m));
    CachedHeld(CacheAt(fps, es, m).imports, UsedAt(fps, es, m).keys, key);
  }

  lemma SameUsed(fps: nat, es: seq<Pushed>, b: nat, n: nat, key: BufKey)
    requires fps > 0 && n < |es|
    ensures NoStartGrab(fps, es, b, n) <==> Undropped(fps, es, b, n + 1)
    ensures UsedSince(fps, es, b, n, key) <==> KeptSince(fps, es, b, n, key)
  {
    forall m | b <= m <= n
      ensures StartGrab(fps, es, m) <==> Drops(fps, es, m)
      ensures LatelyUsed(fps, es, m, key) <==> CachedAt(fps, es, m, key)
    {
      SameAt(fps, es, m, key);
    }
    if Undropped(fps, es, b, n + 1) {
      forall m | b <= m <= n ensures !StartGrab(fps, es, m) {
        assert !Drops(fps, es, m);
      }
    }
    if NoStartGrab(fps, es, b, n) {
      forall m | b <= m < n + 1 ensures !Drops(fps, es, m) {
        assert !StartGrab(fps, es, m);
      }
    }
  }

  /** So a grab shows an import from before its window exactly when no push since the window
      began grabbed its first frame, and at each of them the buffer was one of the last four
      distinct ones used. */
  lemma StaleByUse(fps: nat, es: seq<Pushed>, n: nat, key: BufKey)
    requires fps > 0 && n < |es| && es[n].shot == Some(key)
    ensures var s, b := Grabbed(CacheAt(fps, es, n), fps, key, es[n].made).1, StartOf(fps, es, n);
      s.Some? && s.value.at < WindowOf(fps, es, n) <==> NoStartGrab(fps, es, b, n) && UsedSince(fps, es, b, n, key)
  {
    StaleExactly(fps, es, n, key);
    SameUsed(fps, es, StartOf(fps, es, n), n, key);
  }
}
