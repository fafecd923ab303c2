/**
 * The decisions made when rendered page output is requested: the option
 * bits, whether the parser cache may be used, the preconditions checked
 * before anything else, how the final status is assembled from the cache
 * and from the pool work, and the key the pool work is registered under.
 *
 * The parser cache, the pool work and the renderer are not modelled: what
 * they return is passed in (`cached`, `cacheKey`, `runWork`).
 */
module ParserOutputAccess {
  import opened Wrappers
  import opened PhpValues
  import opened StatusValues

  // ---------------------------------------------------------------------
  // Option bits
  // ---------------------------------------------------------------------

  /** Do not look in the cache before parsing. */
  const OPT_NO_CHECK_CACHE: bv64 := 1
  /** Alias of OPT_NO_CHECK_CACHE. */
  const OPT_FORCE_PARSE: bv64 := OPT_NO_CHECK_CACHE
  /** Do not write the cache after parsing (only used within OPT_NO_CACHE). */
  const OPT_NO_UPDATE_CACHE: bv64 := 2
  /** Skip the audience check for deleted or suppressed revisions. */
  const OPT_NO_AUDIENCE_CHECK: bv64 := 4
  /** Neither read nor write the cache. */
  const OPT_NO_CACHE: bv64 := OPT_NO_UPDATE_CACHE | OPT_NO_CHECK_CACHE

  predicate Has(options: bv64, bit: bv64) {
    options & bit != 0
  }

  // ---------------------------------------------------------------------
  // Inputs
  // ---------------------------------------------------------------------

  /** Rendered output, as far as this layer is concerned: an opaque handle. */
  datatype ParserOutput = ParserOutput(handle: nat)

  datatype Revision = Revision(
    id: Option<int>,      // null for a revision not stored in the database
    pageId: int,
    textPublic: bool,     // whether everyone may see the text
    timestamp: string)

  datatype Page = Page(
    pageExists: bool,
    id: int,
    latest: int,                   // id of the latest revision, 0 when none
    prefixedDBkey: string,
    parserCacheSupported: bool,    // whether the content handler supports the parser cache
    revisionRecord: Option<Revision>)

  datatype ParserOptions = ParserOptions(stubThreshold: int, safeToCache: bool)

  /** `$rev->getId()` is truthy: the revision is stored in the database. */
  predicate HasId(rev: Revision) {
    rev.id.Some? && rev.id.value != 0
  }

  /** `$rev->getId()` interpolated into a string (null gives ""). */
  function RevIdString(rev: Revision): string {
    if rev.id.Some? then IntToString(rev.id.value) else ""
  }

  // ---------------------------------------------------------------------
  // Cache decisions
  // ---------------------------------------------------------------------

  /**
   * Whether the parser cache may be used: never for a revision without an
   * id; otherwise only without a stub threshold, for an existing page,
   * for its latest revision (or none given), with cache support.
   */
  function ShouldUseCache(page: Page, popts: ParserOptions, rev: Option<Revision>): (r: bool)
    ensures rev.Some? && !HasId(rev.value) ==> !r
    ensures (rev.None? || HasId(rev.value)) ==>
      (r <==> popts.stubThreshold == 0 && page.pageExists &&
              (rev.None? || rev.value.id.value == page.latest) && page.parserCacheSupported)
  {
    if rev.Some? && !HasId(rev.value) then false
    else
      var oldId: Option<int> := if rev.Some? then rev.value.id else Some(0);
      popts.stubThreshold == 0 && page.pageExists &&
      (oldId.None? || oldId.value == 0 || oldId.value == page.latest) &&
      page.parserCacheSupported
  }

  /**
   * The cached output, if the cache may be used; `cached` is what the
   * cache holds for the page and options.
   */
  function GetCachedParserOutput(page: Page, popts: ParserOptions, rev: Option<Revision>, cached: Option<ParserOutput>)
    : (r: Option<ParserOutput>)
    ensures popts.stubThreshold != 0 ==> r.None?
    ensures !ShouldUseCache(page, popts, rev) ==> r.None?
    ensures r.Some? <==> ShouldUseCache(page, popts, rev) && cached.Some?
    ensures r.Some? ==> r == cached
  {
    if popts.stubThreshold != 0 then None
    else if !ShouldUseCache(page, popts, rev) then None
    else cached
  }

  // ---------------------------------------------------------------------
  // Preconditions
  // ---------------------------------------------------------------------

  datatype Check =
    | Passed
    | Fails(status: Status<ParserOutput>)
    | Throws(message: string)       // InvalidArgumentException

  const UnsafeOptions := "The supplied ParserOptions are not safe to cache. Use NO_CACHE."
  const UnknownRevisionId := "The revision does not have a known ID. Use NO_CACHE."
  const ForeignRevision := "The revision does not belong to the given page."

  /**
   * The checks made before any output is looked up, each only when the
   * earlier ones passed: the page exists; unless the cache is not to be
   * updated, the options are safe to cache and the revision has an id;
   * the revision belongs to the page; unless told otherwise, its text is
   * public.
   */
  function CheckPreconditions(page: Page, popts: ParserOptions, rev: Option<Revision>, options: bv64): (r: Check)
    ensures !page.pageExists ==> r == Fails(NewFatal("nopagetext", []))
    ensures page.pageExists && !Has(options, OPT_NO_UPDATE_CACHE) && !popts.safeToCache ==> r == Throws(UnsafeOptions)
    ensures page.pageExists && !Has(options, OPT_NO_UPDATE_CACHE) && popts.safeToCache && rev.Some? && !HasId(rev.value) ==>
      r == Throws(UnknownRevisionId)
    ensures r.Throws? && r.message == ForeignRevision <==>
      page.pageExists && (Has(options, OPT_NO_UPDATE_CACHE) || (popts.safeToCache && (rev.None? || HasId(rev.value)))) &&
      rev.Some? && rev.value.pageId != page.id
    ensures r == Passed <==>
      page.pageExists &&
      (Has(options, OPT_NO_UPDATE_CACHE) || (popts.safeToCache && (rev.None? || HasId(rev.value)))) &&
      (rev.None? || (rev.value.pageId == page.id && (Has(options, OPT_NO_AUDIENCE_CHECK) || rev.value.textPublic)))
    ensures r.Fails? && page.pageExists ==>
      rev.Some? && !rev.value.textPublic && !Has(options, OPT_NO_AUDIENCE_CHECK) &&
      r.status == NewFatal("missing-revision-permission", [RevIdString(rev.value), rev.value.timestamp, page.prefixedDBkey])
  {
    if !page.pageExists then Fails(NewFatal("nopagetext", []))
    else if !Has(options, OPT_NO_UPDATE_CACHE) && !popts.safeToCache then Throws(UnsafeOptions)
    else if !Has(options, OPT_NO_UPDATE_CACHE) && rev.Some? && !HasId(rev.value) then Throws(UnknownRevisionId)
    else if rev.Some? && rev.value.pageId != page.id then Throws(ForeignRevision)
    else if rev.Some? && !Has(options, OPT_NO_AUDIENCE_CHECK) && !rev.value.textPublic then
      Fails(NewFatal("missing-revision-permission", [RevIdString(rev.value), rev.value.timestamp, page.prefixedDBkey]))
    else Passed
  }

  // ---------------------------------------------------------------------
  // Pool work
  // ---------------------------------------------------------------------

  /** The pool work to run: its key, and whether it reads and writes the cache. */
  datatype Work = Work(key: string, current: bool)

  /** What the pool work reported after running. */
  datatype WorkResult = WorkResult(
    output: Option<ParserOutput>,
    error: Option<Status<()>>,
    isDirty: bool,        // the output is a stale cache entry
    isFastStale: bool)    // returned at once instead of waiting for the lock

  /**
   * The work for a revision: it uses the cache unless told not to update
   * it and only if the cache may be used; its key is the cache key, the
   * revision id and which of the two kinds of work it is.
   */
  method NewPoolWorkArticleView(page: Page, popts: ParserOptions, rev: Revision, options: bv64, cacheKey: string)
    returns (work: Work)
    ensures work.current <==> !Has(options, OPT_NO_UPDATE_CACHE) && ShouldUseCache(page, popts, Some(rev))
    ensures work.key == cacheKey + ":revid:" + RevIdString(rev) + (if work.current then ":current" else ":uncached")
  {
    var useCache: bool;
    if Has(options, OPT_NO_UPDATE_CACHE) {
      useCache := false;
    } else {
      useCache := ShouldUseCache(page, popts, Some(rev));
    }
    var workKey := cacheKey + ":revid:" + RevIdString(rev);
    if useCache {
      workKey := workKey + ":current";
    } else {
      workKey := workKey + ":uncached";
    }
    return Work(workKey, useCache);
  }

  /** The messages the work's error status carries, if any. */
  function ErrorMessages(w: WorkResult): seq<Message> {
    if w.error.Some? then w.error.value.messages else []
  }

  /** The work's error, if any, is not fatal. */
  predicate ErrorOk(w: WorkResult) {
    w.error.None? || w.error.value.ok
  }

  /** The two warnings added for dirty output. */
  function DirtyWarnings(w: WorkResult): seq<Message> {
    [Message(Warning, "view-pool-dirty-output", []),
     Message(Warning, if w.isFastStale then "view-pool-contention" else "view-pool-overload", [])]
  }

  /**
   * The status reports the work's outcome: OK iff the work produced output
   * and reported no fatal error; when OK it holds the output and the
   * work's messages followed by the dirty-output warnings if the output is
   * stale; otherwise no output, and 'pool-errorunknown' after the work's
   * messages when the work reported no fatal error of its own.
   */
  predicate ReportsWork(s: Status<ParserOutput>, w: WorkResult) {
    (s.ok <==> w.output.Some? && ErrorOk(w)) &&
    (s.ok ==> s.value == w.output && s.messages == ErrorMessages(w) + (if w.isDirty then DirtyWarnings(w) else [])) &&
    (!s.ok ==>
      s.value.None? && s.messages == ErrorMessages(w) + (if ErrorOk(w) then [Message(Error, "pool-errorunknown", [])] else []))
  }

  /** Builds the final status from what the pool work reported. */
  method StatusFromWork(result: WorkResult) returns (status: Status<ParserOutput>)
    ensures ReportsWork(status, result)
  {
    var output := result.output;
    status := NewGood(None);
    if result.error.Some? {
      status := Merge(status, result.error.value);
    }
    if output.None? && status.ok {
      status := Fatal(status, "pool-errorunknown", []);
    }
    if output.Some? && status.ok {
      status := SetResult(status, true, output.value);
    }
    if status.ok && result.isDirty {
      var staleReason := if result.isFastStale then "view-pool-contention" else "view-pool-overload";
      status := AddWarning(status, "view-pool-dirty-output");
      status := AddWarning(status, staleReason);
    }
  }

  /**
   * The output for a page: a failed precondition as it is; a cache hit,
   * unless told not to look; the fatal 'missing-revision' when there is no
   * revision to render; otherwise the result of the pool work, which is
   * OK iff it produced output and reported no fatal error, and which
   * carries the dirty-output warnings only when OK. `cached` is what the
   * cache holds, `cacheKey` the key it files the page under, and `runWork`
   * what running a work yields. `ran` is the work that was run, if any.
   */
  method GetParserOutput(page: Page, popts: ParserOptions, revision: Option<Revision>, options: bv64,
                         cached: Option<ParserOutput>, cacheKey: string, runWork: Work -> WorkResult)
    returns (r: Result<Status<ParserOutput>, string>, ran: Option<Work>)
    ensures CheckPreconditions(page, popts, revision, options).Throws? ==>
      r == Failure(CheckPreconditions(page, popts, revision, options).message) && ran.None?
    ensures CheckPreconditions(page, popts, revision, options).Fails? ==>
      r == Success(CheckPreconditions(page, popts, revision, options).status) && ran.None?
    ensures (CheckPreconditions(page, popts, revision, options) == Passed && !Has(options, OPT_NO_CHECK_CACHE) &&
             GetCachedParserOutput(page, popts, revision, cached).Some?) ==>
      r == Success(NewGood(cached)) && ran.None?
    ensures ran.Some? <==>
      CheckPreconditions(page, popts, revision, options) == Passed &&
      (Has(options, OPT_NO_CHECK_CACHE) || GetCachedParserOutput(page, popts, revision, cached).None?) &&
      (revision.Some? || page.revisionRecord.Some?)
    ensures (CheckPreconditions(page, popts, revision, options) == Passed &&
             (Has(options, OPT_NO_CHECK_CACHE) || GetCachedParserOutput(page, popts, revision, cached).None?) &&
             revision.None? && page.revisionRecord.None?) ==>
      r == Success(NewFatal("missing-revision", [IntToString(page.latest)])) && ran.None?
    ensures ran.Some? ==>
      var rev := if revision.Some? then revision.value else page.revisionRecord.value;
      var w := runWork(ran.value);
      (ran.value.current <==> !Has(options, OPT_NO_UPDATE_CACHE) && ShouldUseCache(page, popts, Some(rev))) &&
      ran.value.key == cacheKey + ":revid:" + RevIdString(rev) + (if ran.value.current then ":current" else ":uncached") &&
      r.Success? && ReportsWork(r.value, w)
    ensures ran.Some? && Has(options, OPT_NO_UPDATE_CACHE) ==> !ran.value.current
    ensures ran.Some? && revision.Some? && revision.value.id != Some(page.latest) ==> !ran.value.current
  {
    var error := CheckPreconditions(page, popts, revision, options);
    match error {
      case Throws(m) => return Failure(m), None;
      case Fails(s) => return Success(s), None;
      case Passed =>
    }

    if !Has(options, OPT_NO_CHECK_CACHE) {
      var output := GetCachedParserOutput(page, popts, revision, cached);
      if output.Some? {
        return Success(NewGood(output)), None;
      }
    }

    var rev: Revision;
    if revision.Some? {
      rev := revision.value;
    } else {
      if page.revisionRecord.None? {
        return Success(NewFatal("missing-revision", [IntToString(page.latest)])), None;
      }
      rev := page.revisionRecord.value;
    }

    var work := NewPoolWorkArticleView(page, popts, rev, options, cacheKey);
    var status := StatusFromWork(runWork(work));
    return Success(status), Some(work);
  }

  // ---------------------------------------------------------------------
  // Lemmas
  // ---------------------------------------------------------------------

  /** FORCE_PARSE is NO_CHECK_CACHE; NO_CACHE is both cache bits; the audience bit is separate from both. */
  lemma OptionBits()
    ensures OPT_FORCE_PARSE == OPT_NO_CHECK_CACHE
    ensures OPT_NO_CACHE == 3 && Has(OPT_NO_CACHE, OPT_NO_CHECK_CACHE) && Has(OPT_NO_CACHE, OPT_NO_UPDATE_CACHE)
    ensures OPT_NO_AUDIENCE_CHECK & OPT_NO_CACHE == 0
  {
  }

  /**
   * Works for different revisions of the same kind under the same cache
   * key have different keys, and so do the two kinds of work for one
   * revision.
   */
  lemma WorkKeysDistinct(cacheKey: string, a: Revision, b: Revision, currentA: bool, currentB: bool)
    requires HasId(a) && HasId(b)
    requires a.id != b.id || currentA != currentB
    ensures cacheKey + ":revid:" + RevIdString(a) + (if currentA then ":current" else ":uncached") !=
            cacheKey + ":revid:" + RevIdString(b) + (if currentB then ":current" else ":uncached")
  {
    var prefix := cacheKey + ":revid:";
    var sa := if currentA then ":current" else ":uncached";
    var sb := if currentB then ":current" else ":uncached";
    var ka := prefix + RevIdString(a) + sa;
    var kb := prefix + RevIdString(b) + sb;
    if currentA != currentB {
      assert ka[|ka| - 1] != kb[|kb| - 1];
    } else {
      if RevIdString(a) == RevIdString(b) {
        IntToStringInjective(a.id.value, b.id.value);
      }
      assert ka[|prefix|..|ka| - |sa|] == RevIdString(a);
      assert kb[|prefix|..|kb| - |sb|] == RevIdString(b);
    }
  }

  /** Output for a revision that is not the page's latest is never taken from the cache. */
  lemma OldRevisionNeverCached(page: Page, popts: ParserOptions, rev: Revision, cached: Option<ParserOutput>)
    requires rev.id != Some(page.latest)
    ensures GetCachedParserOutput(page, popts, Some(rev), cached).None?
  {
  }
}
