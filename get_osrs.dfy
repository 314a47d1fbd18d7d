/**
 * get_osrs.py: fetch a target's observation sequence results (OSRs) page by
 * page, keep those created at or after `from_time`, and write each one to
 * `osrs/{norad_id}_{created_at}.json` (or print it).
 *
 * The server is the function `fetch`, from the `after` cursor to the batch it
 * returns. Times are whole microseconds from a fixed origin. The text form of
 * a creation time (Python's `str` of a datetime) is the function `render`.
 */
module GetOsrs {
  import opened Wrappers

  /** An observation sequence result; only its creation time is read. */
  datatype Osr = Osr(id: string, createdAt: int)

  /** A page that keeps exactly this many recent OSRs asks for another. */
  const PageSize: nat := 5

  /** The OSRs of a batch created at or after `fromTime`, in batch order. */
  function Recent(batch: seq<Osr>, fromTime: int): (r: seq<Osr>)
    ensures |r| <= |batch|
    ensures forall o :: o in r <==> o in batch && fromTime <= o.createdAt
  {
    if batch == [] then []
    else
      assert forall o :: o in batch <==> o == batch[0] || o in batch[1..];
      (if fromTime <= batch[0].createdAt then [batch[0]] else []) + Recent(batch[1..], fromTime)
  }

  /** A single OSR is kept exactly when it was created at or after `fromTime`. */
  lemma RecentSingle(o: Osr, fromTime: int)
    ensures Recent([o], fromTime) == if fromTime <= o.createdAt then [o] else []
  {
    assert [o][1..] == [];
  }

  /** Filtering keeps the batch order: it distributes over concatenation. */
  lemma {:induction false} RecentAppend(a: seq<Osr>, b: seq<Osr>, fromTime: int)
    ensures Recent(a + b, fromTime) == Recent(a, fromTime) + Recent(b, fromTime)
    decreases |a|
  {
    if a == [] {
      assert a + b == b;
    } else {
      assert (a + b)[0] == a[0];
      assert (a + b)[1..] == a[1..] + b;
      RecentAppend(a[1..], b, fromTime);
    }
  }

  // ---------------------------------------------------------------------
  // Pagination

  /** The cursors requested, in order, the OSRs collected, and whether a short page was seen. */
  datatype Run = Run(cursors: seq<Option<int>>, osrs: seq<Osr>, complete: bool)

  /** The page at this cursor keeps exactly 5 recent OSRs, so paging goes on after it. */
  predicate FullPage(fetch: Option<int> -> seq<Osr>, fromTime: int, cursor: Option<int>) {
    |Recent(fetch(cursor), fromTime)| == PageSize
  }

  /** The cursor for the page after a full batch: its last OSR's creation time. */
  function NextCursor(batch: seq<Osr>): Option<int>
    requires batch != []
  {
    Some(batch[|batch| - 1].createdAt)
  }

  /**
   * Paging from cursor `after` with at most `pages` more requests: a page
   * whose recent part is not exactly 5 long ends the run; otherwise the next
   * cursor is the creation time of the last OSR of the raw batch.
   */
  function Paging(fetch: Option<int> -> seq<Osr>, fromTime: int, after: Option<int>, pages: nat): Run
    decreases pages
  {
    if pages == 0 then Run([], [], false)
    else
      var batch := fetch(after);
      var filtered := Recent(batch, fromTime);
      if !FullPage(fetch, fromTime, after) then Run([after], filtered, true)
      else
        var rest := Paging(fetch, fromTime, NextCursor(batch), pages - 1);
        Run([after] + rest.cursors, filtered + rest.osrs, rest.complete)
  }

  /** A run preceded by the requests already made and the OSRs already collected. */
  function After(cursors: seq<Option<int>>, osrs: seq<Osr>, rest: Run): Run {
    Run(cursors + rest.cursors, osrs + rest.osrs, rest.complete)
  }

  lemma AfterAfter(c1: seq<Option<int>>, o1: seq<Osr>, c2: seq<Option<int>>, o2: seq<Osr>, rest: Run)
    ensures After(c1, o1, After(c2, o2, rest)) == After(c1 + c2, o1 + o2, rest)
  {
    assert c1 + (c2 + rest.cursors) == (c1 + c2) + rest.cursors;
    assert o1 + (o2 + rest.osrs) == (o1 + o2) + rest.osrs;
  }

  /**
   * The pagination loop. It asks for the first page with no cursor and
   * stops after the first page whose recent part is not 5 long; `maxPages`
   * bounds the number of requests. Returns the OSRs collected, the cursors
   * requested and whether paging ended on a short page.
   */
  method FetchOsrs(fetch: Option<int> -> seq<Osr>, fromTime: int, maxPages: nat)
    returns (osrs: seq<Osr>, cursors: seq<Option<int>>, complete: bool)
    ensures Run(cursors, osrs, complete) == Paging(fetch, fromTime, None, maxPages)
  {
    osrs := [];
    cursors := [];
    var more := true;
    var afterTime: Option<int> := None;
    var pages: nat := 0;
    assert After([], [], Paging(fetch, fromTime, None, maxPages)) == Paging(fetch, fromTime, None, maxPages);
    while more && pages < maxPages
      invariant pages <= maxPages
      invariant more ==> Paging(fetch, fromTime, None, maxPages) ==
                         After(cursors, osrs, Paging(fetch, fromTime, afterTime, maxPages - pages))
      invariant !more ==> Paging(fetch, fromTime, None, maxPages) == Run(cursors, osrs, true)
      decreases maxPages - pages, more
    {
      ghost var c0, o0, a0 := cursors, osrs, afterTime;
      cursors := cursors + [afterTime];
      var batch := fetch(afterTime);
      var filtered := Recent(batch, fromTime);
      osrs := osrs + filtered;
      if |filtered| != PageSize {
        more := false;
      } else {
        afterTime := Some(batch[|batch| - 1].createdAt);
        AfterAfter(c0, o0, [a0], filtered, Paging(fetch, fromTime, afterTime, maxPages - pages - 1));
      }
      pages := pages + 1;
    }
    complete := !more;
    if more {
      assert Paging(fetch, fromTime, afterTime, 0) == Run([], [], false);
      assert cursors + [] == cursors && osrs + [] == osrs;
    }
  }

  /** The OSRs collected from the given cursors: each batch's recent part, in request order. */
  function CollectedFrom(fetch: Option<int> -> seq<Osr>, fromTime: int, cursors: seq<Option<int>>): seq<Osr>
    decreases |cursors|
  {
    if cursors == [] then [] else Recent(fetch(cursors[0]), fromTime) + CollectedFrom(fetch, fromTime, cursors[1..])
  }

  /** Every request but the last got a full page, and the next cursor came from that page. */
  ghost predicate Chained(fetch: Option<int> -> seq<Osr>, fromTime: int, cursors: seq<Option<int>>) {
    forall i :: 0 <= i < |cursors| - 1 ==>
      FullPage(fetch, fromTime, cursors[i]) && cursors[i + 1] == NextCursor(fetch(cursors[i]))
  }

  /**
   * How a run ends: a run with requests left starts at the given cursor; a
   * complete run ends on a page whose recent part is not 5 long; a run that
   * is not complete used every request it had.
   */
  lemma {:induction false} PagingEnds(fetch: Option<int> -> seq<Osr>, fromTime: int, after: Option<int>, pages: nat)
    ensures var run := Paging(fetch, fromTime, after, pages);
      |run.cursors| <= pages &&
      (pages > 0 ==> |run.cursors| > 0 && run.cursors[0] == after) &&
      (run.complete ==>
         |run.cursors| > 0 && !FullPage(fetch, fromTime, run.cursors[|run.cursors| - 1])) &&
      (!run.complete ==> |run.cursors| == pages)
    decreases pages
  {
    if pages > 0 {
      var batch := fetch(after);
      if FullPage(fetch, fromTime, after) {
        var rest := Paging(fetch, fromTime, NextCursor(batch), pages - 1);
        PagingEnds(fetch, fromTime, NextCursor(batch), pages - 1);
        var run := Paging(fetch, fromTime, after, pages);
        if run.complete {
          assert run.cursors[|run.cursors| - 1] == rest.cursors[|rest.cursors| - 1];
        }
      }
    }
  }

  /**
   * The cursors of a run are chained: each one after the first is the
   * creation time of the last raw OSR of the full page before it.
   */
  lemma {:induction false} PagingChainsCursors(fetch: Option<int> -> seq<Osr>, fromTime: int, after: Option<int>, pages: nat)
    ensures Chained(fetch, fromTime, Paging(fetch, fromTime, after, pages).cursors)
    decreases pages
  {
    if pages > 0 && FullPage(fetch, fromTime, after) {
      var next := NextCursor(fetch(after));
      var rest := Paging(fetch, fromTime, next, pages - 1);
      PagingChainsCursors(fetch, fromTime, next, pages - 1);
      PagingEnds(fetch, fromTime, next, pages - 1);
      var cs := Paging(fetch, fromTime, after, pages).cursors;
      assert cs == [after] + rest.cursors;
      forall i | 0 <= i < |cs| - 1
        ensures FullPage(fetch, fromTime, cs[i]) && cs[i + 1] == NextCursor(fetch(cs[i]))
      {
        if i > 0 {
          assert cs[i] == rest.cursors[i - 1];
          assert cs[i + 1] == rest.cursors[i];
        }
      }
    }
  }

  /** The OSRs of a run are the recent parts of its pages, in request order. */
  lemma {:induction false} PagingCollects(fetch: Option<int> -> seq<Osr>, fromTime: int, after: Option<int>, pages: nat)
    ensures var run := Paging(fetch, fromTime, after, pages);
      run.osrs == CollectedFrom(fetch, fromTime, run.cursors)
    decreases pages
  {
    if pages > 0 {
      var run := Paging(fetch, fromTime, after, pages);
      if FullPage(fetch, fromTime, after) {
        var next := NextCursor(fetch(after));
        PagingCollects(fetch, fromTime, next, pages - 1);
        assert run.cursors[1..] == Paging(fetch, fromTime, next, pages - 1).cursors;
      } else {
        assert run.cursors[1..] == [];
      }
    }
  }

  /** Every OSR collected was created at or after `fromTime`. */
  lemma {:induction false} PagingKeepsOnlyRecent(fetch: Option<int> -> seq<Osr>, fromTime: int, after: Option<int>, pages: nat)
    ensures forall o :: o in Paging(fetch, fromTime, after, pages).osrs ==> fromTime <= o.createdAt
    decreases pages
  {
    if pages > 0 {
      var batch := fetch(after);
      if |Recent(batch, fromTime)| == PageSize {
        PagingKeepsOnlyRecent(fetch, fromTime, Some(batch[|batch| - 1].createdAt), pages - 1);
      }
    }
  }

  /**
   * The stop rule counts the recent part, not the page: a full page of 5
   * that holds an OSR older than `fromTime` ends paging at once.
   */
  lemma FullPageWithOldOsrStops(fetch: Option<int> -> seq<Osr>, fromTime: int, pages: nat)
    requires pages > 0
    requires |fetch(None)| == PageSize
    requires exists o :: o in fetch(None) && o.createdAt < fromTime
    ensures Paging(fetch, fromTime, None, pages) == Run([None], Recent(fetch(None), fromTime), true)
  {
    var batch := fetch(None);
    var o :| o in batch && o.createdAt < fromTime;
    var filtered := Recent(batch, fromTime);
    assert |filtered| < PageSize by {
      var k :| 0 <= k < |batch| && batch[k] == o;
      RecentDropsOne(batch, fromTime, k);
    }
  }

  /** Dropping an old OSR makes the recent part shorter than the batch. */
  lemma {:induction false} RecentDropsOne(batch: seq<Osr>, fromTime: int, k: int)
    requires 0 <= k < |batch| && batch[k].createdAt < fromTime
    ensures |Recent(batch, fromTime)| < |batch|
    decreases |batch|
  {
    if k > 0 {
      RecentDropsOne(batch[1..], fromTime, k - 1);
    }
  }

  // ---------------------------------------------------------------------
  // Serialisation and output

  /** The values the JSON encoder may hand to `json_serial`. */
  datatype PyValue =
    | PyDateTime(isoformat: string)
    | PyDate(isoformat: string)
    | PyOther(typeName: string)

  /** json_serial: dates and datetimes become their ISO form; anything else is a TypeError. */
  function JsonSerial(obj: PyValue): (r: Result<string, string>)
    ensures r.Success? <==> obj.PyDateTime? || obj.PyDate?
    ensures r.Success? ==> r.value == obj.isoformat
    ensures r.Failure? ==> r.error == "Type <class '" + obj.typeName + "'> not serializable"
  {
    match obj
    case PyDateTime(iso) => Success(iso)
    case PyDate(iso) => Success(iso)
    case PyOther(name) => Failure("Type <class '" + name + "'> not serializable")
  }

  /** The file an OSR is written to: `osrs/{norad_id}_{created_at}.json`. */
  function OutputPath(noradId: string, createdAt: string): string {
    "osrs/" + noradId + "_" + createdAt + ".json"
  }

  /** For one NORAD id, different creation times give different files. */
  lemma OutputPathInjective(noradId: string, a: string, b: string)
    requires OutputPath(noradId, a) == OutputPath(noradId, b)
    ensures a == b
  {
    var pa, pb := OutputPath(noradId, a), OutputPath(noradId, b);
    var head := |"osrs/" + noradId + "_"|;
    assert |a| == |b|;
    assert a == pa[head..head + |a|];
    assert b == pb[head..head + |b|];
  }

  function PathOf(noradId: string, render: int -> string, o: Osr): string {
    OutputPath(noradId, render(o.createdAt))
  }

  /** The files after writing the OSRs in order; a later OSR overwrites an earlier one's file. */
  function Files(noradId: string, render: int -> string, osrs: seq<Osr>): map<string, Osr>
    decreases |osrs|
  {
    if osrs == [] then map[]
    else
      var last := osrs[|osrs| - 1];
      Files(noradId, render, osrs[..|osrs| - 1])[PathOf(noradId, render, last) := last]
  }

  /** Every OSR's file exists after the writes. */
  lemma {:induction false} FilesCoverAll(noradId: string, render: int -> string, osrs: seq<Osr>)
    ensures forall i :: 0 <= i < |osrs| ==> PathOf(noradId, render, osrs[i]) in Files(noradId, render, osrs)
    decreases |osrs|
  {
    if osrs != [] {
      var n := |osrs| - 1;
      FilesCoverAll(noradId, render, osrs[..n]);
      forall i | 0 <= i < n
        ensures PathOf(noradId, render, osrs[i]) in Files(noradId, render, osrs)
      {
        assert osrs[i] == osrs[..n][i];
      }
    }
  }

  /** OSR i is the last one written to path p. */
  ghost predicate LastWrittenTo(noradId: string, render: int -> string, osrs: seq<Osr>, p: string, i: int) {
    0 <= i < |osrs| && PathOf(noradId, render, osrs[i]) == p &&
    forall j :: i < j < |osrs| ==> PathOf(noradId, render, osrs[j]) != p
  }

  /** Each file holds the last OSR written to it: no later OSR has the same path. */
  lemma {:induction false} FilesHoldLastWrite(noradId: string, render: int -> string, osrs: seq<Osr>)
    ensures var files := Files(noradId, render, osrs);
      forall p :: p in files ==> exists i :: LastWrittenTo(noradId, render, osrs, p, i) && files[p] == osrs[i]
    decreases |osrs|
  {
    if osrs != [] {
      var n := |osrs| - 1;
      var init := osrs[..n];
      FilesHoldLastWrite(noradId, render, init);
      var files := Files(noradId, render, osrs);
      assert osrs[n] == osrs[|osrs| - 1];
      assert files == Files(noradId, render, init)[PathOf(noradId, render, osrs[n]) := osrs[n]];
      forall p | p in files
        ensures exists i :: LastWrittenTo(noradId, render, osrs, p, i) && files[p] == osrs[i]
      {
        if p == PathOf(noradId, render, osrs[n]) {
          assert LastWrittenTo(noradId, render, osrs, p, n);
        } else {
          assert p in Files(noradId, render, init);
          var i :| LastWrittenTo(noradId, render, init, p, i) && Files(noradId, render, init)[p] == init[i];
          assert osrs[i] == init[i];
          forall j | i < j < |osrs| ensures PathOf(noradId, render, osrs[j]) != p {
            if j < n { assert osrs[j] == init[j]; }
          }
          assert LastWrittenTo(noradId, render, osrs, p, i);
        }
      }
    }
  }

  /**
   * The output loop: with `writeToDisk` each OSR is written to its file,
   * otherwise each is printed. Returns the files written and the OSRs
   * printed, in order.
   */
  method WriteOsrs(noradId: string, render: int -> string, osrs: seq<Osr>, writeToDisk: bool)
    returns (files: map<string, Osr>, printed: seq<Osr>)
    ensures files == if writeToDisk then Files(noradId, render, osrs) else map[]
    ensures printed == if writeToDisk then [] else osrs
  {
    files := map[];
    printed := [];
    var i := 0;
    while i < |osrs|
      invariant 0 <= i <= |osrs|
      invariant files == if writeToDisk then Files(noradId, render, osrs[..i]) else map[]
      invariant printed == if writeToDisk then [] else osrs[..i]
    {
      var osr := osrs[i];
      if writeToDisk {
        assert osrs[..i + 1][..i] == osrs[..i];
        files := files[OutputPath(noradId, render(osr.createdAt)) := osr];
      } else {
        printed := printed + [osr];
      }
      i := i + 1;
    }
    assert osrs[..|osrs|] == osrs;
  }
}
