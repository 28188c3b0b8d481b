/** The bounded in-memory request log: eviction, newest-first paging, and the
    aggregated statistics. Times are numbers on one clock. */
module RequestLog {
  import opened Options

  datatype Record = Record(
    requestID: string, apiKeyID: string, clientIP: string, model: string, backendID: string, endpoint: string,
    stream: bool, status: int, errorCode: string, promptTokens: int, completionTokens: int, totalTokens: int, at: int)

  datatype Query = Query(
    requestID: string, apiKeyID: string, clientIP: string, model: string, backendID: string, endpoint: string,
    status: int, errorCode: string, stream: Option<bool>, since: Option<int>, until: Option<int>, limit: int,
    offset: int)

  predicate Selects(field: string, value: string) { field == "" || field == value }

  predicate Matches(q: Query, r: Record) {
    && Selects(q.requestID, r.requestID) && Selects(q.apiKeyID, r.apiKeyID) && Selects(q.clientIP, r.clientIP)
    && Selects(q.model, r.model) && Selects(q.backendID, r.backendID) && Selects(q.endpoint, r.endpoint)
    && (q.status == 0 || q.status == r.status)
    && Selects(q.errorCode, r.errorCode)
    && (q.stream.None? || q.stream.value == r.stream)
    && (q.since.None? || q.since.value <= r.at)
    && (q.until.None? || r.at <= q.until.value)
  }

  /** The matching records, newest first. */
  function Newest(log: seq<Record>, q: Query): seq<Record> {
    if log == [] then []
    else
      var n := |log| - 1;
      (if Matches(q, log[n]) then [log[n]] else []) + Newest(log[..n], q)
  }

  function Min(a: int, b: int): int { if a <= b then a else b }

  /** At most `limit` of them from `offset` on. */
  function Page(all: seq<Record>, offset: nat, limit: nat): seq<Record> {
    all[Min(offset, |all|)..Min(offset + limit, |all|)]
  }

  function Limit(q: Query): nat { if q.limit <= 0 || q.limit > 1000 then 200 else q.limit }

  function Offset(q: Query): nat { if q.offset < 0 then 0 else q.offset }

  /** The first `n` pages of size `limit`, one after another. */
  function Pages(all: seq<Record>, limit: nat, n: nat): seq<Record> {
    if n == 0 then [] else Pages(all, limit, n - 1) + Page(all, (n - 1) * limit, limit)
  }

  /** Reading page after page gives the filtered log, nothing twice and nothing skipped. */
  lemma {:induction false} PagesRebuildLog(all: seq<Record>, limit: nat, n: nat)
    ensures Pages(all, limit, n) == all[..Min(n * limit, |all|)]
    decreases n
  {
    if n > 0 {
      PagesRebuildLog(all, limit, n - 1);
      assert n * limit == (n - 1) * limit + limit;
      NextPage(all, (n - 1) * limit, limit);
    }
  }

  lemma NextPage(all: seq<Record>, offset: nat, limit: nat)
    ensures all[..Min(offset, |all|)] + Page(all, offset, limit) == all[..Min(offset + limit, |all|)]
  {
  }

  /** Enough pages give everything. */
  lemma AllPagesAreTheLog(all: seq<Record>, limit: nat, n: nat)
    requires limit > 0 && n >= |all|
    ensures Pages(all, limit, n) == all
  {
    PagesRebuildLog(all, limit, n);
    AtLeast(n, limit);
  }

  lemma AtLeast(n: nat, limit: nat)
    requires limit > 0
    ensures n * limit >= n
  {
    assert n * limit == n * (limit - 1) + n;
  }

  /** What a query answers. */
  function ResultOf(log: seq<Record>, q: Query): seq<Record> { Page(Newest(log, q), Offset(q), Limit(q)) }

  /** The answers to the query at the offsets 0, q.limit, 2 * q.limit and so on, `n` of them one after another. */
  function Paged(log: seq<Record>, q: Query, n: nat): seq<Record> {
    if n == 0 then [] else Paged(log, q, n - 1) + ResultOf(log, q.(offset := (n - 1) * q.limit))
  }

  lemma {:induction false} PagingIsNoFilter(log: seq<Record>, q: Query, limit: int, offset: int)
    ensures Newest(log, q.(limit := limit, offset := offset)) == Newest(log, q)
    decreases |log|
  {
    if log != [] { PagingIsNoFilter(log[..|log| - 1], q, limit, offset); }
  }

  lemma PageAt(log: seq<Record>, q: Query, offset: nat)
    requires 1 <= q.limit <= 1000
    ensures ResultOf(log, q.(offset := offset)) == Page(Newest(log, q), offset, q.limit)
  {
    PagingIsNoFilter(log, q, q.limit, offset);
  }

  lemma PagedLast(log: seq<Record>, q: Query, n: nat, offset: nat)
    requires offset == n * q.limit
    ensures Paged(log, q, n + 1) == Paged(log, q, n) + ResultOf(log, q.(offset := offset))
  {
  }

  lemma PagesLast(all: seq<Record>, limit: nat, n: nat, offset: nat)
    requires offset == n * limit
    ensures Pages(all, limit, n + 1) == Pages(all, limit, n) + Page(all, offset, limit)
  {
  }

  lemma Product(n: nat, limit: int) returns (offset: nat)
    requires limit > 0
    ensures offset == n * limit
  {
    offset := n * limit;
  }

  lemma {:induction false} PagedIsPages(log: seq<Record>, q: Query, n: nat)
    requires 1 <= q.limit <= 1000
    ensures Paged(log, q, n) == Pages(Newest(log, q), q.limit, n)
    decreases n
  {
    if n > 0 {
      PagedIsPages(log, q, n - 1);
      MorePaged(log, q, n - 1);
    }
  }

  lemma MorePaged(log: seq<Record>, q: Query, n: nat)
    requires 1 <= q.limit <= 1000 && Paged(log, q, n) == Pages(Newest(log, q), q.limit, n)
    ensures Paged(log, q, n + 1) == Pages(Newest(log, q), q.limit, n + 1)
  {
    var offset := Product(n, q.limit);
    PagedLast(log, q, n, offset);
    PagesLast(Newest(log, q), q.limit, n, offset);
    PageAt(log, q, offset);
  }

  /** Paging through a query with a limit from 1 to 1000: the answers at the offsets 0, limit, 2 * limit and so on make
      up the matching records newest first, as many as were asked for, and all of them in the end. */
  lemma QueriesRebuildLog(log: seq<Record>, q: Query, n: nat)
    requires 1 <= q.limit <= 1000
    ensures var all := Newest(log, q);
            Paged(log, q, n) == all[..Min(n * q.limit, |all|)] && (n >= |all| ==> Paged(log, q, n) == all)
  {
    PagedIsPages(log, q, n);
    PagesRebuildLog(Newest(log, q), q.limit, n);
    if n >= |Newest(log, q)| { AllPagesAreTheLog(Newest(log, q), q.limit, n); }
  }

  /** Any other limit asks for 200, and a negative offset for the first page. */
  lemma OddQueries(log: seq<Record>, q: Query)
    ensures !(1 <= q.limit <= 1000) ==> ResultOf(log, q) == ResultOf(log, q.(limit := 200))
    ensures q.offset < 0 ==> ResultOf(log, q) == ResultOf(log, q.(offset := 0))
  {
    PagingIsNoFilter(log, q, 200, q.offset);
    PagingIsNoFilter(log, q, q.limit, 0);
  }

  /** Every criterion that is set names the record's value, and the record is not outside the period. */
  predicate Passes(q: Query, r: Record) {
    && q.requestID in {"", r.requestID} && q.apiKeyID in {"", r.apiKeyID} && q.clientIP in {"", r.clientIP}
    && q.model in {"", r.model} && q.backendID in {"", r.backendID} && q.endpoint in {"", r.endpoint}
    && q.errorCode in {"", r.errorCode} && q.status in {0, r.status} && q.stream in {None, Some(r.stream)}
    && !(q.since.Some? && r.at < q.since.value) && !(q.until.Some? && r.at > q.until.value)
  }

  lemma MatchesExactly(q: Query, r: Record)
    ensures Matches(q, r) <==> Passes(q, r)
  {
  }

  /** `out` is the records of `log` at the places `at`, which go down. */
  ghost predicate Picks(log: seq<Record>, out: seq<Record>, at: seq<nat>) {
    && |at| == |out| && (forall i :: 0 <= i < |at| ==> at[i] < |log| && out[i] == log[at[i]])
    && forall i, j :: 0 <= i < j < |at| ==> at[i] > at[j]
  }

  ghost predicate PlacesOf(log: seq<Record>, q: Query, at: seq<nat>) {
    forall k: nat :: k in at <==> k < |log| && Passes(q, log[k])
  }

  lemma PicksMore(front: seq<Record>, r: Record, out: seq<Record>, at: seq<nat>)
    requires Picks(front, out, at)
    ensures Picks(front + [r], out, at) && Picks(front + [r], [r] + out, [|front|] + at)
  {
  }

  lemma PlacesMore(front: seq<Record>, r: Record, q: Query, at: seq<nat>)
    requires PlacesOf(front, q, at)
    ensures PlacesOf(front + [r], q, if Passes(q, r) then [|front|] + at else at)
  {
    var log, longer := front + [r], [|front|] + at;
    assert forall k: nat :: k in longer <==> k == |front| || k in at;
    assert log[|front|] == r && forall k: nat :: k < |front| ==> log[k] == front[k];
  }

  /** The records that pass, each once, from the newest to the oldest. */
  lemma {:induction false} NewestExactly(log: seq<Record>, q: Query) returns (at: seq<nat>)
    ensures Picks(log, Newest(log, q), at) && PlacesOf(log, q, at)
    decreases |log|
  {
    at := [];
    if log != [] {
      var n := |log| - 1;
      var front, r := log[..n], log[n];
      assert log == front + [r];
      at := NewestExactly(front, q);
      MatchesExactly(q, r);
      PicksMore(front, r, Newest(front, q), at);
      PlacesMore(front, r, q, at);
      assert [] + Newest(front, q) == Newest(front, q);
      if Passes(q, r) { at := [n] + at; }
    }
  }

  lemma NewestStep(out: seq<Record>, log: seq<Record>, q: Query, i: nat)
    requires i < |log|
    ensures out + Newest(log[..i + 1], q) == (if Matches(q, log[i]) then out + [log[i]] else out) + Newest(log[..i], q)
  {
    assert log[..i + 1][..i] == log[..i];
    var rest := Newest(log[..i], q);
    if Matches(q, log[i]) {
      assert out + ([log[i]] + rest) == (out + [log[i]]) + rest;
    } else {
      assert [] + rest == rest;
    }
  }

  /** `out` is what the limit, 200 unless it is from 1 to 1000, leaves of `all` from the offset on. */
  predicate IsPage(out: seq<Record>, all: seq<Record>, q: Query) {
    var first := if q.offset < 0 then 0 else Min(q.offset, |all|);
    out == all[first..Min(first + (if 1 <= q.limit <= 1000 then q.limit else 200), |all|)]
  }

  lemma PageBounds(all: seq<Record>, q: Query)
    ensures IsPage(Page(all, Offset(q), Limit(q)), all, q)
  {
  }

  /** A long enough prefix has the same page. */
  lemma PageOfPrefix(out: seq<Record>, all: seq<Record>, offset: nat, limit: nat)
    requires out <= all && (|out| == |all| || |out| == limit + offset)
    ensures Page(all, offset, limit) == if offset >= |out| then [] else out[offset..Min(offset + limit, |out|)]
  {
  }

  class Memory {
    var requests: seq<Record>
    const maxRecs: nat
    ghost var history: seq<Record>   // everything ever appended

    constructor (maxRecords: int)
      ensures Valid() && requests == [] && history == []
      ensures maxRecs == if maxRecords <= 0 then 50000 else maxRecords
    {
      requests, history := [], [];
      maxRecs := if maxRecords <= 0 then 50000 else maxRecords;
    }

    function Evicted(): nat { if maxRecs / 10 < 1 then 1 else maxRecs / 10 }

    /** The log is a suffix of the history, never over its bound, complete until the history
        outgrows the bound, and never shorter than the bound less one eviction after that. */
    ghost predicate Valid()
      reads this
    {
      && maxRecs > 0
      && |requests| <= |history| && requests == history[|history| - |requests|..]
      && |requests| <= maxRecs
      && (|history| <= maxRecs ==> requests == history)
      && (|history| > maxRecs ==> |requests| >= maxRecs + 1 - Evicted())
    }

    method AppendRequest(rec: Record)
      requires Valid()
      modifies this
      ensures Valid()
      ensures history == old(history) + [rec]
      ensures requests != [] && requests[|requests| - 1] == rec
      ensures var all := old(requests) + [rec];
              requests == if |all| <= maxRecs then all else if maxRecs < 20 then all[1..] else all[maxRecs / 10..]
    {
      history := history + [rec];
      requests := requests + [rec];
      if |requests| > maxRecs {
        var evict := maxRecs / 10;
        if evict < 1 { evict := 1; }
        requests := requests[evict..];
      }
    }

    /** The newest matching records, stopping once there are `want`. */
    method CollectNewest(q: Query, want: nat) returns (out: seq<Record>)
      ensures out <= Newest(requests, q)
      ensures |out| == Min(want, |Newest(requests, q)|)
    {
      ghost var all := Newest(requests, q);
      out := [];
      var i := |requests| - 1;
      assert requests[..i + 1] == requests;
      while i >= 0 && |out| < want
        invariant -1 <= i < |requests| && |out| <= want
        invariant all == out + Newest(requests[..i + 1], q)
      {
        NewestStep(out, requests, q, i);
        if Matches(q, requests[i]) { out := out + [requests[i]]; }
        i := i - 1;
      }
      if i < 0 { assert all == out; }
    }

    /** Despite stopping early, exactly the asked-for page of the filtered log. */
    method QueryRequests(q: Query) returns (out: seq<Record>)
      ensures out == ResultOf(requests, q)
      ensures IsPage(out, Newest(requests, q), q)
    {
      var limit := q.limit;
      if limit <= 0 || limit > 1000 { limit := 200; }
      var offset := q.offset;
      if offset < 0 { offset := 0; }
      ghost var all := Newest(requests, q);
      PageBounds(all, q);
      out := CollectNewest(q, limit + offset);
      PageOfPrefix(out, all, offset, limit);
      if offset >= |out| { return []; }
      out := out[offset..];
      if |out| > limit { assert false; }   // at most limit + offset were collected
    }

    /** The aggregate over everything not older than `since`. */
    method StatsSince(since: int) returns (s: Stats)
      ensures s == Aggregate(requests, since)
    {
      s := EMPTY;
      for i := 0 to |requests|
        invariant s == Aggregate(requests[..i], since)
      {
        var r := requests[i];
        AggregateSnoc(requests, since, i);
        if r.at < since { continue; }
        s := s.(total := s.total + 1);
        if 200 <= r.status < 400 { s := s.(success := s.success + 1); } else { s := s.(error := s.error + 1); }
        s := s.(prompt := s.prompt + r.promptTokens, completion := s.completion + r.completionTokens,
                tokens := s.tokens + r.totalTokens);
        s := s.(byModel := Bump(s.byModel, r.model, r), byBackend := Bump(s.byBackend, r.backendID, r),
                byKey := Bump(s.byKey, r.apiKeyID, r));
        if r.clientIP != "" { s := s.(byIP := Bump(s.byIP, r.clientIP, r)); }
      }
      assert requests[..|requests|] == requests;
    }
  }

  // ----- Statistics -----

  datatype Stat = Stat(requests: int, errors: int, tokens: int)

  datatype Stats = Stats(
    total: int, success: int, error: int, prompt: int, completion: int, tokens: int,
    byModel: map<string, Stat>, byBackend: map<string, Stat>, byKey: map<string, Stat>, byIP: map<string, Stat>)

  const EMPTY := Stats(0, 0, 0, 0, 0, 0, map[], map[], map[], map[])
  const NONE := Stat(0, 0, 0)

  function Plus(a: Stat, b: Stat): Stat { Stat(a.requests + b.requests, a.errors + b.errors, a.tokens + b.tokens) }

  function StatOf(r: Record): Stat { Stat(1, if r.status >= 400 then 1 else 0, r.totalTokens) }

  function EntryOf(m: map<string, Stat>, group: string): Stat { if group in m then m[group] else NONE }

  function Bump(m: map<string, Stat>, group: string, r: Record): map<string, Stat> {
    m[group := Plus(EntryOf(m, group), StatOf(r))]
  }

  /** Records of the window that `p` selects, added up one by one. */
  function Tally(log: seq<Record>, since: int, p: Record -> bool): Stat {
    if log == [] then NONE
    else
      var n := |log| - 1;
      Plus(Tally(log[..n], since, p), if log[n].at >= since && p(log[n]) then StatOf(log[n]) else NONE)
  }

  /** What `f` adds up to over the window. */
  function SumOf(log: seq<Record>, since: int, f: Record -> int): int {
    if log == [] then 0
    else
      var n := |log| - 1;
      SumOf(log[..n], since, f) + (if log[n].at >= since then f(log[n]) else 0)
  }

  /** A breakdown of the records of the window that `p` selects, by the group `of` each. */
  function Grouped(log: seq<Record>, since: int, of: Record -> string, p: Record -> bool): map<string, Stat> {
    if log == [] then map[]
    else
      var n := |log| - 1;
      var before := Grouped(log[..n], since, of, p);
      if log[n].at >= since && p(log[n]) then Bump(before, of(log[n]), log[n]) else before
  }

  function Everything(): Record -> bool { (r: Record) => true }
  function WithAddress(): Record -> bool { (r: Record) => r.clientIP != "" }
  function Successful(): Record -> bool { (r: Record) => 200 <= r.status < 400 }
  function Failed(): Record -> bool { (r: Record) => !(200 <= r.status < 400) }
  /** Counted as an error in total but not of its group: an informational or missing status. */
  function BelowOK(): Record -> bool { (r: Record) => r.status < 200 }
  function PromptTokens(): Record -> int { (r: Record) => r.promptTokens }
  function CompletionTokens(): Record -> int { (r: Record) => r.completionTokens }
  function ModelOf(): Record -> string { (r: Record) => r.model }
  function BackendOf(): Record -> string { (r: Record) => r.backendID }
  function KeyOf(): Record -> string { (r: Record) => r.apiKeyID }
  function AddressOf(): Record -> string { (r: Record) => r.clientIP }

  /** Each total and each breakdown of the window on its own. */
  function Aggregate(log: seq<Record>, since: int): Stats {
    var all := Tally(log, since, Everything());
    Stats(
      all.requests, Tally(log, since, Successful()).requests, Tally(log, since, Failed()).requests,
      SumOf(log, since, PromptTokens()), SumOf(log, since, CompletionTokens()), all.tokens,
      Grouped(log, since, ModelOf(), Everything()), Grouped(log, since, BackendOf(), Everything()),
      Grouped(log, since, KeyOf(), Everything()), Grouped(log, since, AddressOf(), WithAddress()))
  }

  /** `f` of the records that `p` selects. */
  function Where(p: Record -> bool, f: Record -> int): Record -> int { (r: Record) => if p(r) then f(r) else 0 }

  function Each(): Record -> int { (r: Record) => 1 }
  function EachError(): Record -> int { (r: Record) => if r.status >= 400 then 1 else 0 }
  function TotalTokens(): Record -> int { (r: Record) => r.totalTokens }

  /** A tally counts its records, counts its errors and adds up its tokens. */
  lemma TallyExact(log: seq<Record>, since: int, p: Record -> bool)
    ensures var t := Tally(log, since, p);
            && t.requests == SumOf(log, since, Where(p, Each())) && t.errors == SumOf(log, since, Where(p, EachError()))
            && t.tokens == SumOf(log, since, Where(p, TotalTokens()))
  {
    RequestsCounted(log, since, p);
    ErrorsCounted(log, since, p);
    TokensAdded(log, since, p);
  }

  lemma {:induction false} RequestsCounted(log: seq<Record>, since: int, p: Record -> bool)
    ensures Tally(log, since, p).requests == SumOf(log, since, Where(p, Each()))
    decreases |log|
  {
    if log != [] { RequestsCounted(log[..|log| - 1], since, p); }
  }

  lemma {:induction false} ErrorsCounted(log: seq<Record>, since: int, p: Record -> bool)
    ensures Tally(log, since, p).errors == SumOf(log, since, Where(p, EachError()))
    decreases |log|
  {
    if log != [] {
      var r, before := log[|log| - 1], log[..|log| - 1];
      ErrorsCounted(before, since, p);
      assert Where(p, EachError())(r) == if p(r) then StatOf(r).errors else 0;
      assert Tally(log, since, p).errors == Tally(before, since, p).errors +
          (if r.at >= since && p(r) then StatOf(r).errors else 0);
    }
  }

  lemma {:induction false} TokensAdded(log: seq<Record>, since: int, p: Record -> bool)
    ensures Tally(log, since, p).tokens == SumOf(log, since, Where(p, TotalTokens()))
    decreases |log|
  {
    if log != [] { TokensAdded(log[..|log| - 1], since, p); }
  }

  lemma TallySnoc(log: seq<Record>, since: int, p: Record -> bool, i: nat)
    requires i < |log|
    ensures Tally(log[..i + 1], since, p) ==
            Plus(Tally(log[..i], since, p), if log[i].at >= since && p(log[i]) then StatOf(log[i]) else NONE)
  {
    assert log[..i + 1][..i] == log[..i];
  }

  lemma SumOfSnoc(log: seq<Record>, since: int, f: Record -> int, i: nat)
    requires i < |log|
    ensures SumOf(log[..i + 1], since, f) == SumOf(log[..i], since, f) + (if log[i].at >= since then f(log[i]) else 0)
  {
    assert log[..i + 1][..i] == log[..i];
  }

  lemma GroupedSnoc(log: seq<Record>, since: int, of: Record -> string, p: Record -> bool, i: nat)
    requires i < |log|
    ensures var before, r := Grouped(log[..i], since, of, p), log[i];
            Grouped(log[..i + 1], since, of, p) == if r.at >= since && p(r) then Bump(before, of(r), r) else before
  {
    assert log[..i + 1][..i] == log[..i];
  }

  /** The fields of the aggregate after one more record, each from its own value before. */
  lemma AggregateSnoc(log: seq<Record>, since: int, i: nat)
    requires i < |log|
    ensures var s, r := Aggregate(log[..i], since), log[i];
            Aggregate(log[..i + 1], since) == if r.at < since then s else Added(s, r)
  {
    TallySnoc(log, since, Everything(), i);
    TallySnoc(log, since, Successful(), i);
    TallySnoc(log, since, Failed(), i);
    SumOfSnoc(log, since, PromptTokens(), i);
    SumOfSnoc(log, since, CompletionTokens(), i);
    GroupedSnoc(log, since, ModelOf(), Everything(), i);
    GroupedSnoc(log, since, BackendOf(), Everything(), i);
    GroupedSnoc(log, since, KeyOf(), Everything(), i);
    GroupedSnoc(log, since, AddressOf(), WithAddress(), i);
  }

  function Added(s: Stats, r: Record): Stats {
    var ok := 200 <= r.status < 400;
    Stats(
      s.total + 1, s.success + (if ok then 1 else 0), s.error + (if ok then 0 else 1),
      s.prompt + r.promptTokens, s.completion + r.completionTokens, s.tokens + r.totalTokens,
      Bump(s.byModel, r.model, r), Bump(s.byBackend, r.backendID, r), Bump(s.byKey, r.apiKeyID, r),
      if r.clientIP != "" then Bump(s.byIP, r.clientIP, r) else s.byIP)
  }

  // ----- The breakdowns add up -----

  /** The sum over all groups of a breakdown. */
  ghost function Sum(m: map<string, Stat>): Stat {
    if m == map[] then NONE
    else
      var k :| k in m;
      Plus(m[k], Sum(m - {k}))
  }

  lemma Swap(a: Stat, b: Stat, c: Stat)
    ensures Plus(a, Plus(b, c)) == Plus(b, Plus(a, c))
  {
  }

  /** The group to take out of the sum first does not matter. */
  lemma {:induction false} SumTakes(m: map<string, Stat>, k: string)
    requires k in m
    ensures Sum(m) == Plus(m[k], Sum(m - {k}))
    decreases |m|
  {
    assert m != map[];
    var j :| j in m && Sum(m) == Plus(m[j], Sum(m - {j}));
    if j != k {
      SumTakes(m - {j}, k);
      SumTakes(m - {k}, j);
      var rest := m - {j} - {k};
      assert m - {k} - {j} == rest;
      Swap(m[j], m[k], Sum(rest));
    }
  }

  lemma SumBump(m: map<string, Stat>, group: string, r: Record)
    ensures Sum(Bump(m, group, r)) == Plus(Sum(m), StatOf(r))
  {
    var b := Bump(m, group, r);
    SumTakes(b, group);
    assert b - {group} == m - {group};
    if group in m { SumTakes(m, group); } else { assert m - {group} == m; }
  }

  /** Every breakdown adds up to the records it covers, whatever it groups by. */
  lemma {:induction false} GroupsAddUp(log: seq<Record>, since: int, of: Record -> string, p: Record -> bool)
    ensures Sum(Grouped(log, since, of, p)) == Tally(log, since, p)
    decreases |log|
  {
    if log != [] {
      var n := |log| - 1;
      GroupsAddUp(log[..n], since, of, p);
      SumBump(Grouped(log[..n], since, of, p), of(log[n]), log[n]);
    }
  }

  lemma {:induction false} SuccessOrFailure(log: seq<Record>, since: int)
    ensures Tally(log, since, Successful()).requests + Tally(log, since, Failed()).requests ==
            Tally(log, since, Everything()).requests
    decreases |log|
  {
    if log != [] { SuccessOrFailure(log[..|log| - 1], since); }
  }

  lemma {:induction false} FailuresSplit(log: seq<Record>, since: int)
    ensures Tally(log, since, Failed()).requests ==
            Tally(log, since, Everything()).errors + Tally(log, since, BelowOK()).requests
    decreases |log|
  {
    if log != [] { FailuresSplit(log[..|log| - 1], since); }
  }

  /** The requests, errors and tokens of a breakdown add up to `all`. */
  ghost predicate AddsUpTo(m: map<string, Stat>, all: Stat) { Sum(m) == all }

  /** Totals are conserved for every log: models, backends and keys each add up to the same requests, errors and tokens,
      and those are the grand totals, but for errors with a status below 200; addresses add up to the records that have
      one; successes and errors make up the total. */
  lemma StatsConserve(log: seq<Record>, since: int) returns (all: Stat)
    ensures var s := Aggregate(log, since);
            && all.requests == s.total && all.tokens == s.tokens && s.success + s.error == s.total
            && s.error == all.errors + Tally(log, since, BelowOK()).requests
            && AddsUpTo(s.byModel, all) && AddsUpTo(s.byBackend, all) && AddsUpTo(s.byKey, all)
            && AddsUpTo(s.byIP, Tally(log, since, WithAddress()))
  {
    all := Tally(log, since, Everything());
    GroupsAddUp(log, since, ModelOf(), Everything());
    GroupsAddUp(log, since, BackendOf(), Everything());
    GroupsAddUp(log, since, KeyOf(), Everything());
    GroupsAddUp(log, since, AddressOf(), WithAddress());
    SuccessOrFailure(log, since);
    FailuresSplit(log, since);
  }

  // ----- Errors with a status below 200 -----

  predicate NoneBelowOK(log: seq<Record>, since: int) {
    forall i :: 0 <= i < |log| && log[i].at >= since ==> log[i].status >= 200
  }

  lemma NoneBelowSnoc(log: seq<Record>, since: int)
    requires log != []
    ensures var n := |log| - 1;
            NoneBelowOK(log, since) <==> NoneBelowOK(log[..n], since) && (log[n].at >= since ==> log[n].status >= 200)
  {
    assert forall i :: 0 <= i < |log| - 1 ==> log[..|log| - 1][i] == log[i];
  }

  lemma {:induction false} NoneBelow(log: seq<Record>, since: int)
    ensures Tally(log, since, BelowOK()).requests >= 0
    ensures Tally(log, since, BelowOK()).requests == 0 <==> NoneBelowOK(log, since)
    decreases |log|
  {
    if log != [] {
      NoneBelow(log[..|log| - 1], since);
      NoneBelowSnoc(log, since);
    }
  }

  /** The sum over models falls short of the error total. */
  ghost predicate FallsShort(log: seq<Record>, since: int) {
    Sum(Aggregate(log, since).byModel).errors < Aggregate(log, since).error
  }

  /** The per-group error counts add up to the error total exactly when no record of the window has a status below 200,
      and fall short of it otherwise. */
  lemma ErrorTotalsAgreeExactly(log: seq<Record>, since: int)
    ensures Sum(Aggregate(log, since).byModel).errors == Aggregate(log, since).error <==> NoneBelowOK(log, since)
    ensures FallsShort(log, since) <==> !NoneBelowOK(log, since)
  {
    var all := StatsConserve(log, since);
    NoneBelow(log, since);
  }

  /** In particular with any such record. */
  lemma LowStatusIsMissed(log: seq<Record>, since: int, i: nat)
    requires i < |log| && log[i].at >= since && log[i].status < 200
    ensures FallsShort(log, since)
  {
    ErrorTotalsAgreeExactly(log, since);
  }

  /** Such a log, for every record with such a status: for one, a request that its backend answered with 101. */
  lemma ErrorTotalsDisagree(r: Record) returns (log: seq<Record>)
    requires r.status < 200
    ensures |log| == 1 && log[0] == r && FallsShort(log, r.at)
  {
    log := [r];
    LowStatusIsMissed(log, r.at, 0);
  }

  // ----- Each entry -----

  lemma BumpEntry(m: map<string, Stat>, group: string, r: Record, g: string)
    ensures EntryOf(Bump(m, group, r), g) == Plus(EntryOf(m, g), if group == g then StatOf(r) else NONE)
  {
  }

  function InGroup(of: Record -> string, p: Record -> bool, g: string): Record -> bool {
    (r: Record) => p(r) && of(r) == g
  }

  /** Each entry of a breakdown is exactly the records of its own group, whatever it groups by: so for models, backends
      and keys, and for addresses, where a record without one has no entry. */
  lemma {:induction false} GroupExact(log: seq<Record>, since: int, of: Record -> string, p: Record -> bool, g: string)
    ensures EntryOf(Grouped(log, since, of, p), g) == Tally(log, since, InGroup(of, p, g))
    decreases |log|
  {
    if log != [] {
      var n := |log| - 1;
      GroupExact(log[..n], since, of, p, g);
      BumpEntry(Grouped(log[..n], since, of, p), of(log[n]), log[n], g);
    }
  }
}
