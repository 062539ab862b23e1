/** Bulk seeding: the timestamps of generated posts, the thread statistics folded back from them,
    and chunked insertion. Times are minutes. */
module Seeding {
  import opened Common
  import opened AuthUsers
  import opened Counting

  const POSTS_PER_THREAD := 18
  const BODIES := 10

  datatype Thread = Thread(id: Id, author: Id)

  /** A generated post; `body` numbers the stock sentence and `number` is the running number a
      reply carries in its text. */
  datatype Post = Post(thread: Id, author: Id, opening: bool, number: nat, body: nat, createdAt: int)

  /** The post at place `pi` of thread `ti`, counting both from zero, oldest thread first. */
  function SeedPost(threads: seq<Thread>, users: seq<Id>, now: int, ti: nat, pi: nat): Post
    requires ti < |threads| && pi < POSTS_PER_THREAD && users != []
  {
    var number := ti * POSTS_PER_THREAD + pi + 1;
    Post(threads[ti].id,
         if pi == 0 then threads[ti].author else users[(number - 1) % |users|],
         pi == 0, number, (number - 1) % BODIES,
         now - ((|threads| - 1 - ti) * (POSTS_PER_THREAD + 2) + POSTS_PER_THREAD - pi))
  }

  predicate Seeded(rows: seq<Post>, threads: seq<Thread>, users: seq<Id>, now: int)
    requires users != []
  {
    && |rows| == |threads| * POSTS_PER_THREAD
    && forall k :: 0 <= k < |rows| ==>
         rows[k] == SeedPost(threads, users, now, k / POSTS_PER_THREAD, k % POSTS_PER_THREAD)
  }

  method SeedBulkPosts(threads: seq<Thread>, users: seq<Id>, now: int) returns (rows: seq<Post>)
    requires users != []
    ensures Seeded(rows, threads, users, now)
  {
    rows := [];
    var nt := |threads|;
    for ti := 0 to nt
      invariant |rows| == ti * POSTS_PER_THREAD
      invariant forall k :: 0 <= k < |rows| ==>
        rows[k] == SeedPost(threads, users, now, k / POSTS_PER_THREAD, k % POSTS_PER_THREAD)
    {
      var base := (nt - 1 - ti) * (POSTS_PER_THREAD + 2);
      for pi := 0 to POSTS_PER_THREAD
        invariant |rows| == ti * POSTS_PER_THREAD + pi
        invariant forall k :: 0 <= k < |rows| ==>
          rows[k] == SeedPost(threads, users, now, k / POSTS_PER_THREAD, k % POSTS_PER_THREAD)
      {
        var i := ti * POSTS_PER_THREAD + pi + 1;
        var author := if pi == 0 then threads[ti].author else users[(i - 1) % |users|];
        rows := rows + [Post(threads[ti].id, author, pi == 0, i, (i - 1) % BODIES, now - (base + POSTS_PER_THREAD - pi))];
      }
    }
  }

  /** Row by row: the eighteen rows of a thread stand together, the first is its opening post, by its
      own author, the others are by the users in turn; running numbers and stock sentences go on
      from row to row. */
  lemma SeededRows(rows: seq<Post>, threads: seq<Thread>, users: seq<Id>, now: int, k: nat)
    requires users != [] && Seeded(rows, threads, users, now) && k < |rows|
    ensures k / 18 < |threads| && rows[k].thread == threads[k / 18].id
    ensures rows[k].opening <==> k % 18 == 0
    ensures rows[k].author == if k % 18 == 0 then threads[k / 18].author else users[k % |users|]
    ensures rows[k].number == k + 1 && rows[k].body == k % 10
  {
    assert k == (k / 18) * 18 + k % 18;
  }

  /** Sorting by time gives back the generation order: thread blocks never interleave, the opening
      post of a thread comes before its replies, and nothing is dated now or later. */
  lemma TimeOrderIsSeedOrder(rows: seq<Post>, threads: seq<Thread>, users: seq<Id>, now: int, i: nat, j: nat)
    requires users != [] && Seeded(rows, threads, users, now) && i < |rows| && j < |rows|
    ensures rows[i].createdAt < rows[j].createdAt <==> i < j
    ensures rows[i].createdAt < now
    ensures i / POSTS_PER_THREAD < j / POSTS_PER_THREAD ==> rows[i].createdAt + 3 <= rows[j].createdAt
    ensures rows[i].opening && i / POSTS_PER_THREAD == j / POSTS_PER_THREAD && i != j
            ==> rows[i].createdAt < rows[j].createdAt && !rows[j].opening
  {
    var a, b := i / POSTS_PER_THREAD, j / POSTS_PER_THREAD;
    assert i == a * POSTS_PER_THREAD + i % POSTS_PER_THREAD;
    assert j == b * POSTS_PER_THREAD + j % POSTS_PER_THREAD;
  }

  // ── Thread statistics ──────────────────────────────────────────────────────

  datatype Stat = Stat(count: nat, last: int)

  datatype ThreadRow = ThreadRow(replyCount: int, lastPostAt: Option<int>)

  function Updated(stat: Stat): ThreadRow {
    ThreadRow(if stat.count - 1 > 0 then stat.count - 1 else 0, Some(stat.last))
  }

  predicate Latest(rows: seq<Post>, thread: Id, last: int) {
    && (exists k :: 0 <= k < |rows| && rows[k].thread == thread && rows[k].createdAt == last)
    && (forall k :: 0 <= k < |rows| && rows[k].thread == thread ==> rows[k].createdAt <= last)
  }

  ghost function PostsOf(rows: seq<Post>, thread: Id): nat { Count(rows, (p: Post) => p.thread == thread) }

  ghost predicate Summarises(stats: map<Id, Stat>, rows: seq<Post>) {
    && (forall t: Id :: t in stats <==> PostsOf(rows, t) > 0)
    && (forall t: Id :: t in stats ==> stats[t].count == PostsOf(rows, t) && Latest(rows, t, stats[t].last))
  }

  method ThreadStats(rows: seq<Post>) returns (stats: map<Id, Stat>)
    ensures Summarises(stats, rows)
  {
    stats := map[];
    for k := 0 to |rows|
      invariant Summarises(stats, rows[..k])
    {
      var post := rows[k];
      var entry := if post.thread in stats then stats[post.thread] else Stat(0, post.createdAt);
      ghost var before := stats;
      stats := stats[post.thread := Stat(entry.count + 1, if post.createdAt > entry.last then post.createdAt else entry.last)];
      SummaryGrows(before, rows[..k], post, stats);
      assert rows[..k + 1] == rows[..k] + [post];
    }
    assert rows[..|rows|] == rows;
  }

  lemma LatestGrows(rows: seq<Post>, post: Post, thread: Id, last: int)
    requires Latest(rows, thread, last)
    ensures Latest(rows + [post], thread,
                   if post.thread == thread && post.createdAt > last then post.createdAt else last)
  {
    var k :| 0 <= k < |rows| && rows[k].thread == thread && rows[k].createdAt == last;
    assert (rows + [post])[k] == rows[k] && (rows + [post])[|rows|] == post;
  }

  lemma LatestFirst(rows: seq<Post>, post: Post)
    requires PostsOf(rows, post.thread) == 0
    ensures Latest(rows + [post], post.thread, post.createdAt)
  {
    forall k | 0 <= k < |rows| ensures rows[k].thread != post.thread {
      if rows[k].thread == post.thread { CountHas(rows, k, (p: Post) => p.thread == post.thread); }
    }
    assert (rows + [post])[|rows|] == post;
  }

  lemma SummaryGrows(before: map<Id, Stat>, rows: seq<Post>, post: Post, after: map<Id, Stat>)
    requires Summarises(before, rows)
    requires var entry := if post.thread in before then before[post.thread] else Stat(0, post.createdAt);
             after == before[post.thread :=
               Stat(entry.count + 1, if post.createdAt > entry.last then post.createdAt else entry.last)]
    ensures Summarises(after, rows + [post])
  {
    hide Latest;
    forall t: Id
      ensures PostsOf(rows + [post], t) == PostsOf(rows, t) + (if post.thread == t then 1 else 0)
    {
      CountAppend(rows, post, (p: Post) => p.thread == t);
    }
    if post.thread !in before { LatestFirst(rows, post); }
    forall t: Id | t in before ensures Latest(rows + [post], t, after[t].last) {
      LatestGrows(rows, post, t, before[t].last);
    }
  }

  /** The threads table, updated in place from the statistics. */
  class ThreadTable {
    var rows: map<Id, ThreadRow>

    constructor (rows: map<Id, ThreadRow>)
      ensures this.rows == rows
    {
      this.rows := rows;
    }

    method Apply(stats: map<Id, Stat>)
      modifies this
      ensures rows.Keys == old(rows).Keys
      ensures forall t: Id :: t in rows ==>
        rows[t] == if t in stats then Updated(stats[t]) else old(rows)[t]
    {
      var left := stats.Keys;
      while left != {}
        invariant left <= stats.Keys && rows.Keys == old(rows).Keys
        invariant forall t: Id :: t in rows ==>
          rows[t] == if t in stats && t !in left then Updated(stats[t]) else old(rows)[t]
        decreases |left|
      {
        var t :| t in left;
        left := left - {t};
        if t in rows {
          rows := rows[t := Updated(stats[t])];
        }
      }
    }

    /** The opening post is not a reply; threads without posts keep their row. */
    method SyncStats(posts: seq<Post>)
      modifies this
      ensures rows.Keys == old(rows).Keys
      ensures forall t: Id :: t in rows && PostsOf(posts, t) > 0 ==>
                && rows[t].replyCount == PostsOf(posts, t) - 1
                && rows[t].lastPostAt.Some? && Latest(posts, t, rows[t].lastPostAt.value)
      ensures forall t: Id :: t in rows && PostsOf(posts, t) == 0 ==> rows[t] == old(rows)[t]
    {
      hide Latest, PostsOf;
      var stats := ThreadStats(posts);
      Apply(stats);
    }
  }

  // ── What the statistics come to ────────────────────────────────────────────

  lemma RowOfThread(rows: seq<Post>, threads: seq<Thread>, users: seq<Id>, now: int, ti: nat, k: nat)
    requires users != [] && Seeded(rows, threads, users, now) && ti < |threads| && k < |rows|
    requires forall i, j :: 0 <= i < j < |threads| ==> threads[i].id != threads[j].id
    ensures rows[k].thread == threads[ti].id
            <==> ti * POSTS_PER_THREAD <= k < ti * POSTS_PER_THREAD + POSTS_PER_THREAD
  {
    var at := k / POSTS_PER_THREAD;
    assert rows[k].thread == threads[at].id;
    assert k == at * POSTS_PER_THREAD + k % POSTS_PER_THREAD;
  }

  /** Every seeded thread has eighteen posts. */
  lemma {:induction false} EighteenEach(rows: seq<Post>, threads: seq<Thread>, users: seq<Id>, now: int, ti: nat, m: nat)
    requires users != [] && Seeded(rows, threads, users, now) && ti < |threads| && m <= |rows|
    requires forall i, j :: 0 <= i < j < |threads| ==> threads[i].id != threads[j].id
    ensures PostsOf(rows[..m], threads[ti].id)
            == if m <= ti * POSTS_PER_THREAD then 0
               else if m <= ti * POSTS_PER_THREAD + POSTS_PER_THREAD then m - ti * POSTS_PER_THREAD
               else POSTS_PER_THREAD
  {
    hide Seeded;
    if m > 0 {
      EighteenEach(rows, threads, users, now, ti, m - 1);
      assert rows[..m] == rows[..m - 1] + [rows[m - 1]];
      CountAppend(rows[..m - 1], rows[m - 1], (p: Post) => p.thread == threads[ti].id);
      RowOfThread(rows, threads, users, now, ti, m - 1);
    }
  }

  /** Whatever order the rows come back in, every seeded thread ends with seventeen replies and
      the time of its own last post. */
  lemma SeededThreadStats(rows: seq<Post>, posts: seq<Post>, threads: seq<Thread>, users: seq<Id>, now: int,
                          ti: nat, last: int)
    requires users != [] && Seeded(rows, threads, users, now) && ti < |threads|
    requires forall i, j :: 0 <= i < j < |threads| ==> threads[i].id != threads[j].id
    requires multiset(posts) == multiset(rows)
    ensures PostsOf(posts, threads[ti].id) - 1 == 17
    ensures Latest(posts, threads[ti].id, last)
            <==> last == SeedPost(threads, users, now, ti, POSTS_PER_THREAD - 1).createdAt
  {
    assert rows[..|rows|] == rows;
    EighteenEach(rows, threads, users, now, ti, |rows|);
    CountPermuted(posts, rows, (p: Post) => p.thread == threads[ti].id);
    var k := ti * POSTS_PER_THREAD + POSTS_PER_THREAD - 1;
    assert k / POSTS_PER_THREAD == ti && k % POSTS_PER_THREAD == POSTS_PER_THREAD - 1;
    assert rows[k] in multiset(posts);
    var at :| 0 <= at < |posts| && posts[at] == rows[k];
    forall i | 0 <= i < |posts| && posts[i].thread == threads[ti].id
      ensures posts[i].createdAt <= rows[k].createdAt
    {
      assert posts[i] in multiset(rows);
      var j :| 0 <= j < |rows| && rows[j] == posts[i];
      assert rows[j].thread == threads[j / POSTS_PER_THREAD].id;
    }
  }

  // ── Chunked insertion ──────────────────────────────────────────────────────

  /** A table with a unique key, as insertion that ignores conflicts leaves it. */
  function InsertOrIgnore<K, R>(table: map<K, R>, rows: seq<(K, R)>): map<K, R>
    decreases |rows|
  {
    if rows == [] then table
    else InsertOrIgnore(if rows[0].0 in table then table else table[rows[0].0 := rows[0].1], rows[1..])
  }

  lemma {:induction false} InsertInTwoParts<K, R>(table: map<K, R>, a: seq<(K, R)>, b: seq<(K, R)>)
    ensures InsertOrIgnore(table, a + b) == InsertOrIgnore(InsertOrIgnore(table, a), b)
    decreases |a|
  {
    if a == [] {
      assert a + b == b;
    } else {
      assert (a + b)[1..] == a[1..] + b;
      InsertInTwoParts(if a[0].0 in table then table else table[a[0].0 := a[0].1], a[1..], b);
    }
  }

  /** A stored row is never replaced, and of several new rows with one key the first is kept. */
  lemma {:induction false} FirstRowWins<K, R>(table: map<K, R>, rows: seq<(K, R)>, key: K)
    ensures var after := InsertOrIgnore(table, rows);
            && (key in table ==> key in after && after[key] == table[key])
            && (key !in table ==>
                  (key in after <==> exists k :: 0 <= k < |rows| && rows[k].0 == key))
            && (key !in table && key in after ==>
                  exists k :: 0 <= k < |rows| && rows[k] == (key, after[key]) && forall j :: 0 <= j < k ==> rows[j].0 != key)
    decreases |rows|
  {
    if rows != [] {
      var next := if rows[0].0 in table then table else table[rows[0].0 := rows[0].1];
      FirstRowWins(next, rows[1..], key);
      var after := InsertOrIgnore(table, rows);
      if key !in table && key in after {
        if rows[0].0 == key {
          assert rows[0] == (key, after[key]);
        } else {
          var k :| 0 <= k < |rows[1..]| && rows[1..][k] == (key, after[key])
                   && forall j :: 0 <= j < k ==> rows[1..][j].0 != key;
          assert rows[k + 1] == (key, after[key]);
          forall j | 0 <= j < k + 1 ensures rows[j].0 != key {
            if j > 0 { assert rows[1..][j - 1] == rows[j]; }
          }
        }
      }
      if key !in table && rows[0].0 != key {
        assert forall k :: 0 < k < |rows| ==> rows[1..][k - 1] == rows[k];
      }
    }
  }

  class Database<K(==), R> {
    var table: map<K, R>

    constructor (table: map<K, R>)
      ensures this.table == table
    {
      this.table := table;
    }

    method InsertIgnoring(rows: seq<(K, R)>)
      modifies this
      ensures table == InsertOrIgnore(old(table), rows)
    {
      for k := 0 to |rows|
        invariant InsertOrIgnore(table, rows[k..]) == InsertOrIgnore(old(table), rows)
      {
        var (key, row) := rows[k];
        assert rows[k..][1..] == rows[k + 1..];
        if key !in table {
          table := table[key := row];
        }
      }
    }

    /** Inserting in chunks of any size leaves the table as one insertion of all the rows would. */
    method InsertInChunks(rows: seq<(K, R)>, chunkSize: nat)
      requires chunkSize > 0
      modifies this
      ensures table == InsertOrIgnore(old(table), rows)
    {
      var at := 0;
      assert rows[..0] == [];
      while at < |rows|
        invariant at <= |rows| && table == InsertOrIgnore(old(table), rows[..at])
      {
        var end := if at + chunkSize < |rows| then at + chunkSize else |rows|;
        InsertIgnoring(rows[at..end]);
        InsertInTwoParts(old(table), rows[..at], rows[at..end]);
        assert rows[..end] == rows[..at] + rows[at..end];
        at := end;
      }
      assert rows[..|rows|] == rows;
    }
  }
}
