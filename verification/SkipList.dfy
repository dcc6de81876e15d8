// The memtable's skip list (db/skiplist.h): pointers written one at a time, with readers
// running between any two writes.

module SkipLists {
  import opened Keys
  import opened Iterators

  const MAX_HEIGHT: nat := 12

  class Node {
    const entry: Entry
    var next: seq<Node?>

    constructor (entry: Entry, height: nat)
      ensures this.entry == entry && |next| == height && forall i | 0 <= i < height :: next[i] == null
    {
      this.entry, next := entry, seq(height, _ => null);
    }
  }

  // A level's list: the head, then its nodes.
  type Row = seq<Node>

  function After(row: Row, i: nat): Node?
    requires i < |row|
  {
    if i + 1 < |row| then row[i + 1] else null
  }

  // The nodes' links at one moment.
  type Links = map<Node, seq<Node?>>

  ghost function Snapshot(nodes: set<Node>): Links
    reads nodes
  {
    map n | n in nodes :: n.next
  }

  ghost predicate Linked(m: Links, row: Row, level: nat) {
    forall i | 0 <= i < |row| :: row[i] in m && |m[row[i]]| > level && m[row[i]][level] == After(row, i)
  }

  ghost predicate Ordered(row: Row, head: Node) {
    && row != [] && row[0] == head
    && (forall i | 0 < i < |row| :: row[i] != head)
    && forall i, j | 0 < i < j < |row| :: Less(row[i].entry.key, row[j].entry.key)
  }

  ghost predicate Within(a: Row, b: Row) {
    forall n | n in a :: n in b
  }

  // The row splits after place k: what is up to there is before the key, the rest is not.
  ghost predicate Splits(row: Row, key: InternalKey, k: nat) {
    && k < |row|
    && (k == 0 || Less(row[k].entry.key, key))
    && (k + 1 < |row| ==> !Less(row[k + 1].entry.key, key))
  }

  function Spliced(row: Row, k: nat, x: Node): Row
    requires k < |row|
  {
    row[..k + 1] + [x] + row[k + 1..]
  }

  function Entries(row: Row): (s: seq<Entry>)
    ensures |s| == |row|
  {
    seq(|row|, i requires 0 <= i < |row| => row[i].entry)
  }

  // ---- Rows. ----

  // Splitting places everything.
  lemma SplitsAll(row: Row, head: Node, key: InternalKey, k: nat)
    requires Ordered(row, head) && Splits(row, key, k)
    ensures forall i | 0 < i <= k :: Less(row[i].entry.key, key)
    ensures forall i | k < i < |row| :: !Less(row[i].entry.key, key)
  {
  }

  lemma SplicedOrdered(row: Row, head: Node, k: nat, x: Node)
    requires Ordered(row, head) && Splits(row, x.entry.key, k) && x != head
    requires forall n | n in row && n != head :: n.entry.key != x.entry.key
    ensures Ordered(Spliced(row, k, x), head)
  {
    SplitsAll(row, head, x.entry.key, k);
    var r := Spliced(row, k, x);
    forall i, j | 0 < i < j < |r|
      ensures Less(r[i].entry.key, r[j].entry.key)
    {
    }
  }

  ghost function Place(row: Row, n: Node): (k: nat)
    requires n in row
    ensures k < |row| && row[k] == n
  {
    var k: nat :| k < |row| && row[k] == n;
    k
  }

  lemma PlaceIs(row: Row, head: Node, k: nat)
    requires Ordered(row, head) && k < |row|
    ensures Place(row, row[k]) == k
  {
  }

  ghost predicate AllLinked(m: Links, rows: seq<Row>) {
    forall l: nat | l < |rows| :: Linked(m, rows[l], l)
  }

  function Written(m: Links, n: Node, i: nat, y: Node?): Links
    requires n in m && i < |m[n]|
  {
    m[n := m[n][i := y]]
  }

  // Writing one level's link of a node that is not in that level's list shows nowhere.
  lemma WrittenAside(m: Links, rows: seq<Row>, n: Node, i: nat, y: Node?)
    requires AllLinked(m, rows) && n in m && i < |m[n]| && i < |rows| && n !in rows[i]
    ensures AllLinked(Written(m, n, i, y), rows)
  {
    hide After;
    forall l: nat | l < |rows|
      ensures Linked(Written(m, n, i, y), rows[l], l)
    {
      assert Linked(m, rows[l], l);
    }
  }

  lemma SnapshotWritten(m: Links, m': Links, rows: seq<Row>, n: Node, i: nat, y: Node?)
    requires n in m && i < |m[n]| && AllLinked(Written(m, n, i, y), rows)
    requires m'.Keys == m.Keys && forall o | o in m :: m'[o] == if o == n then m[n][i := y] else m[o]
    ensures AllLinked(m', rows)
  {
    assert m' == Written(m, n, i, y);
  }

  lemma StillLinked(m: Links, m': Links, rows: seq<Row>)
    requires AllLinked(m, rows) && forall n | n in m :: n in m' && m'[n] == m[n]
    ensures AllLinked(m', rows)
  {
    forall l: nat | l < |rows|
      ensures Linked(m', rows[l], l)
    {
      assert Linked(m, rows[l], l);
    }
  }

  lemma WrittenLinked(m: Links, row: Row, level: nat, n: Node, i: nat, y: Node?)
    requires Linked(m, row, level) && n in m && i < |m[n]| && i != level
    ensures Linked(Written(m, n, i, y), row, level)
  {
  }

  // Writing the link of the node before x's place puts x in its level's list.
  lemma WrittenSplices(m: Links, row: Row, head: Node, level: nat, k: nat, x: Node)
    requires Linked(m, row, level) && Ordered(row, head) && k < |row| && x !in row
    requires x in m && |m[x]| > level && m[x][level] == After(row, k)
    ensures Linked(Written(m, row[k], level, x), Spliced(row, k, x), level)
  {
    hide Ordered, Spliced, After;
    var r, m' := Spliced(row, k, x), Written(m, row[k], level, x);
    SplicedLength(row, k, x);
    forall i | 0 <= i < |r|
      ensures r[i] in m' && |m'[r[i]]| > level && m'[r[i]][level] == After(r, i)
    {
      SplicedAfter(row, k, x, i);
      if i < k {
        RowDistinct(row, head, i, k);
      } else if i > k + 1 {
        RowDistinct(row, head, k, i - 1);
      }
    }
  }

  lemma RowDistinct(row: Row, head: Node, i: nat, j: nat)
    requires Ordered(row, head) && i < j < |row|
    ensures row[i] != row[j]
  {
  }

  lemma SplicedLength(row: Row, k: nat, x: Node)
    requires k < |row|
    ensures |Spliced(row, k, x)| == |row| + 1
  {
  }

  lemma SplicedAfter(row: Row, k: nat, x: Node, i: nat)
    requires k < |row| && i <= |row|
    ensures |Spliced(row, k, x)| == |row| + 1
    ensures var r := Spliced(row, k, x);
      && r[i] == (if i <= k then row[i] else if i == k + 1 then x else row[i - 1])
      && After(r, i) == if i < k then After(row, i) else if i == k then x else After(row, i - 1)
  {
  }

  ghost predicate Among(row: Row, nodes: set<Node>) {
    forall n | n in row :: n in nodes
  }

  // Each level is sorted, and a sublist of the level below.
  ghost predicate Tower(rows: seq<Row>, head: Node, maxHeight: nat, nodes: set<Node>) {
    && |rows| == MAX_HEIGHT && 1 <= maxHeight <= MAX_HEIGHT
    && (forall l | 0 <= l < MAX_HEIGHT :: Ordered(rows[l], head))
    && (forall l | 0 <= l < MAX_HEIGHT :: Among(rows[l], nodes))
    && (forall l | 0 < l < MAX_HEIGHT :: Within(rows[l], rows[l - 1]))
    && (forall l | maxHeight <= l < MAX_HEIGHT :: rows[l] == [head])
  }

  // The node of a level that a new entry of the key is to follow.
  ghost predicate Precedes(n: Node, row: Row, key: InternalKey) {
    n in row && Splits(row, key, Place(row, n))
  }

  // Every node ever linked stays where readers look for it.
  ghost predicate Grown(a: seq<Row>, b: seq<Row>) {
    |a| == |b| && forall l | 0 <= l < |a| :: Within(a[l], b[l])
  }

  // ---- The list. ----

  // FindGreaterOrEqual, FindLessThan, FindLast.
  datatype Search = AtOrAfter(key: InternalKey) | Before(key: InternalKey) | Last

  class SkipList {
    const head: Node
    var maxHeight: nat
    ghost var rows: seq<Row>
    ghost var nodes: set<Node>

    ghost predicate Shaped()
      reads this
    {
      Tower(rows, head, maxHeight, nodes)
    }

    // The pointers say just this.
    ghost predicate Valid()
      reads this, nodes
    {
      Shaped() && AllLinked(Snapshot(nodes), rows)
    }

    ghost function Contents(): seq<Entry>
      requires Shaped()
      reads this
    {
      Entries(rows[0][1..])
    }

    constructor (any: Entry)
      ensures Valid() && Contents() == [] && fresh(nodes)
    {
      head := new Node(any, MAX_HEIGHT);
      maxHeight := 1;
      new;
      rows, nodes := seq(MAX_HEIGHT, _ => [head]), {head};
    }

    // A place a search for the key may stand at, on the way down.
    ghost predicate OnPath(x: Node, level: nat, key: InternalKey)
      reads this
    {
      Shaped() && level < MAX_HEIGHT && x in rows[level] && (x == head || Less(x.entry.key, key))
    }

    // How many nodes of its level a search has still before it.
    ghost function Far(x: Node, level: nat): nat
      reads this
    {
      if level < |rows| && x in rows[level] then |rows[level]| - Place(rows[level], x) else 0
    }

    lemma StartsOnPath(key: InternalKey)
      requires Valid()
      ensures 1 <= maxHeight <= |rows| == MAX_HEIGHT && OnPath(head, maxHeight - 1, key)
    {
    }

    // No node stands for the end, which is after every key.
    predicate KeyIsAfterNode(key: InternalKey, n: Node?) {
      n != null && Less(n.entry.key, key)
    }

    // The earliest node at or after the key.
    ghost predicate IsFirst(n: Node?, key: InternalKey)
      requires Shaped()
      reads this
    {
      var i := LowerBound(Contents(), key);
      n == if i + 1 < |rows[0]| then rows[0][i + 1] else null
    }

    // One turn of the loop in FindGreaterOrEqual, as a reader without the lock takes it.
    method SearchStep(key: InternalKey, x: Node, level: nat)
      returns (y: Node, below: nat, done: bool, next: Node?)
      requires Valid() && OnPath(x, level, key)
      ensures OnPath(y, below, key) && below <= level <= below + 1
      ensures !done && below == level ==> Far(y, level) < Far(x, level)
      ensures done ==> level == 0 && IsFirst(next, key)
      ensures done || below < level ==> y == x && Precedes(x, rows[level], key)
    {
      hide Tower, Linked, Less, IsFirst, Precedes, OnPath, Far;
      StepFacts(key, x, level);
      next := x.next[level];
      if KeyIsAfterNode(key, next) {
        return next, level, false, null;
      } else if level == 0 {
        return x, level, true, next;
      } else {
        return x, level - 1, false, null;
      }
    }

    lemma StepFacts(key: InternalKey, x: Node, level: nat)
      requires Valid() && OnPath(x, level, key)
      ensures level < |x.next|
      ensures KeyIsAfterNode(key, x.next[level]) ==>
        OnPath(x.next[level], level, key) && Far(x.next[level], level) < Far(x, level)
      ensures !KeyIsAfterNode(key, x.next[level]) ==>
        Precedes(x, rows[level], key) && if level == 0 then IsFirst(x.next[level], key) else OnPath(x, level - 1, key)
    {
      hide Less, AllLinked, Linked, Ordered, LowerBound;
      var row := rows[level];
      var k := Place(row, x);
      NextIs(x, level);
      if KeyIsAfterNode(key, x.next[level]) {
        PlaceIs(row, head, k + 1);
      } else if level == 0 {
        assert Splits(row, key, k);
        SplitIsFirst(key, k);
      }
    }

    lemma NextIs(x: Node, level: nat)
      requires Valid() && level < MAX_HEIGHT && x in rows[level]
      ensures level < |x.next| && x.next[level] == After(rows[level], Place(rows[level], x))
      ensures Ordered(rows[level], head) && (level > 0 ==> Within(rows[level], rows[level - 1]))
    {
      assert Linked(Snapshot(nodes), rows[level], level);
      LinkedAt(Snapshot(nodes), rows[level], level, Place(rows[level], x));
    }

    lemma SplitIsFirst(key: InternalKey, k: nat)
      requires Shaped() && Splits(rows[0], key, k)
      ensures IsFirst(After(rows[0], k), key) && LowerBound(Contents(), key) == k
    {
      SplitsAll(rows[0], head, key, k);
      SplitIsBound(rows[0], key, k);
    }

    method FindGreaterOrEqual(key: InternalKey) returns (next: Node?, prev: seq<Node>)
      requires Valid()
      ensures IsFirst(next, key)
      ensures |prev| == maxHeight && forall l | 0 <= l < maxHeight :: Precedes(prev[l], rows[l], key)
    {
      hide Tower, Linked, Less, IsFirst, Precedes, OnPath, Far;
      StartsOnPath(key);
      var level: nat, x, done := maxHeight - 1, head, false;
      next, prev := null, seq(maxHeight, _ => head);
      while !done
        invariant |prev| == maxHeight <= |rows| && level < maxHeight && OnPath(x, level, key)
        invariant forall l | level < l < maxHeight :: Precedes(prev[l], rows[l], key)
        invariant done ==> level == 0 && IsFirst(next, key) && Precedes(prev[0], rows[0], key)
        decreases !done, level, Far(x, level)
      {
        var y, below;
        y, below, done, next := SearchStep(key, x, level);
        if done || below < level {
          prev := prev[level := x];
        }
        x, level := y, below;
      }
    }

    // The latest node before the key, the head if there is none.
    ghost predicate IsBefore(n: Node?, key: InternalKey)
      requires Shaped()
      reads this
    {
      LowerBound(Contents(), key) < |rows[0]| && n == rows[0][LowerBound(Contents(), key)]
    }

    // One turn of the loop in FindLessThan.
    method LessThanStep(key: InternalKey, x: Node, level: nat) returns (y: Node, below: nat, done: bool)
      requires Valid() && OnPath(x, level, key)
      ensures OnPath(y, below, key) && below <= level <= below + 1
      ensures !done && below == level ==> Far(y, level) < Far(x, level)
      ensures done ==> below == level && y == x && IsBefore(x, key)
    {
      hide Tower, AllLinked, Less, IsFirst, Precedes, OnPath, Far, IsBefore;
      StepFacts(key, x, level);
      var next := x.next[level];
      if next == null || !Less(next.entry.key, key) {
        if level == 0 {
          PrecedesIs(key, x);
          return x, level, true;
        }
        return x, level - 1, false;
      }
      return next, level, false;
    }

    method FindLessThan(key: InternalKey) returns (x: Node)
      requires Valid()
      ensures IsBefore(x, key)
    {
      hide Tower, AllLinked, Less, OnPath, Far, IsBefore;
      StartsOnPath(key);
      var level: nat, done := maxHeight - 1, false;
      x := head;
      while !done
        invariant OnPath(x, level, key) && (done ==> IsBefore(x, key))
        decreases !done, level, Far(x, level)
      {
        x, level, done := LessThanStep(key, x, level);
      }
    }

    lemma PrecedesIs(key: InternalKey, x: Node)
      requires Shaped() && Precedes(x, rows[0], key)
      ensures IsBefore(x, key)
    {
      SplitIsFirst(key, Place(rows[0], x));
    }

    // The last node, the head if the list is empty.
    ghost predicate IsLast(n: Node?)
      reads `rows
    {
      rows != [] && rows[0] != [] && n == rows[0][|rows[0]| - 1]
    }

    // One turn of the loop in FindLast.
    method LastStep(x: Node, level: nat) returns (y: Node, below: nat, done: bool)
      requires Valid() && level < |rows| && x in rows[level]
      ensures below < |rows| && y in rows[below] && below <= level <= below + 1
      ensures !done && below == level ==> Far(y, level) < Far(x, level)
      ensures done ==> below == level && y == x && IsLast(x)
    {
      hide AllLinked, Less, Ordered;
      NextIs(x, level);
      var next := x.next[level];
      if next == null {
        if level == 0 {
          return x, level, true;
        }
        return x, level - 1, false;
      }
      PlaceIs(rows[level], head, Place(rows[level], x) + 1);
      return next, level, false;
    }

    method FindLast() returns (x: Node)
      requires Valid()
      ensures IsLast(x)
    {
      hide Tower, AllLinked, Less, Far, IsLast, OnPath;
      HeadIsIn();
      var level: nat, done := maxHeight - 1, false;
      x := head;
      while !done
        invariant level < |rows| && x in rows[level] && (done ==> IsLast(x))
        decreases !done, level, Far(x, level)
      {
        x, level, done := LastStep(x, level);
      }
    }

    lemma HeadIsIn()
      requires Valid()
      ensures 1 <= maxHeight <= |rows| && head in rows[maxHeight - 1]
    {
    }

    // ---- Any of the three searches, turn by turn. ----

    // What a search is to find.
    ghost predicate Answers(s: Search, n: Node?)
      requires Shaped()
      reads this
    {
      match s
      case AtOrAfter(key) => IsFirst(n, key)
      case Before(key) => IsBefore(n, key)
      case Last => IsLast(n)
    }

    // Where it may stand on the way.
    ghost predicate OnWay(s: Search, x: Node, level: nat)
      reads this
    {
      match s
      case AtOrAfter(key) => OnPath(x, level, key)
      case Before(key) => OnPath(x, level, key)
      case Last => Shaped() && level < |rows| && x in rows[level]
    }

    method Turn(s: Search, x: Node, level: nat) returns (y: Node, below: nat, done: bool, found: Node?)
      requires Valid() && OnWay(s, x, level)
      ensures OnWay(s, y, below) && below <= level
      ensures !done && below == level ==> Far(y, level) < Far(x, level)
      ensures done ==> Answers(s, found)
    {
      hide Tower, AllLinked, Less, OnPath, Far, IsFirst, IsBefore, IsLast, Precedes;
      match s
      case AtOrAfter(key) =>
        y, below, done, found := SearchStep(key, x, level);
      case Before(key) =>
        y, below, done := LessThanStep(key, x, level);
        found := y;
      case Last =>
        y, below, done := LastStep(x, level);
        found := y;
    }

    // From the head on any level.
    lemma StartsOnWay(s: Search, seen: nat)
      requires Valid() && 1 <= seen <= maxHeight
      ensures maxHeight <= |rows| == MAX_HEIGHT && OnWay(s, head, seen - 1)
    {
    }

    method Contains(key: InternalKey) returns (found: bool)
      requires Valid()
      ensures found <==> exists e :: e in Contents() && e.key == key
    {
      var x, prev := FindGreaterOrEqual(key);
      found := x != null && Compare(key, x.entry.key) == 0;
      FirstIsIt(x, key);
    }

    lemma FirstIsIt(x: Node?, key: InternalKey)
      requires Shaped() && IsFirst(x, key)
      ensures x != null && Compare(key, x.entry.key) == 0 <==> exists e :: e in Contents() && e.key == key
    {
      var s, i := Contents(), LowerBound(Contents(), key);
      assert forall j | 0 <= j < |s| :: s[j] == rows[0][j + 1].entry;
      if x != null && Compare(key, x.entry.key) == 0 {
        assert s[i].key == key;
      }
    }

    // Nothing equal to the key may be in the list.
    method Insert(e: Entry, height: nat)
      requires Valid() && 1 <= height <= MAX_HEIGHT
      requires forall o | o in Contents() :: o.key != e.key
      modifies this, nodes
      ensures Valid() && Contents() == InsertSorted(old(Contents()), e)
      ensures fresh(nodes - old(nodes)) && old(nodes) <= nodes
    {
      hide Tower, AllLinked, Aimed, Less, Grown, SplicedRows, InsertSorted;
      var insertion := new Insertion(this, e, height);
      while insertion.i < height
        invariant insertion.Ready() && insertion.list == this && insertion.height == height && fresh(insertion)
        invariant insertion.x.entry == e && fresh(insertion.x) && nodes == old(nodes) + {insertion.x}
        invariant Contents() == if insertion.i == 0 then old(Contents()) else InsertSorted(old(Contents()), e)
        decreases height - insertion.i, !insertion.armed
      {
        insertion.PrevFacts();
        insertion.Step();
      }
    }
  }

  lemma SplitIsBound(row: Row, key: InternalKey, k: nat)
    requires row != [] && Splits(row, key, k)
    requires forall i | 0 < i <= k :: Less(row[i].entry.key, key)
    requires forall i | k < i < |row| :: !Less(row[i].entry.key, key)
    ensures LowerBound(Entries(row[1..]), key) == k
  {
    var s := Entries(row[1..]);
    var i := LowerBound(s, key);
    assert forall j | 0 <= j < |s| :: s[j] == row[j + 1].entry;
    if k < |s| {
      assert s[k] == row[k + 1].entry;
    }
  }

  // ---- Insertion, one pointer write at a time. ----

  // x is linked below level i and nowhere else; from there up, every prev is where x has to go.
  ghost predicate Aimed(rows: seq<Row>, head: Node, x: Node, prev: seq<Node>, height: nat, i: nat) {
    && i <= height <= MAX_HEIGHT == |rows| && height <= |prev| && x != head
    && (forall l | 0 <= l < MAX_HEIGHT :: if l < i then x in rows[l] else x !in rows[l])
    && (forall l | i <= l < height :: Precedes(prev[l], rows[l], x.entry.key))
    && (forall l, n | i <= l < height && n in rows[l] && n != head :: n.entry.key != x.entry.key)
  }

  ghost function SplicedRows(rows: seq<Row>, i: nat, p: Node, x: Node): seq<Row>
    requires i < |rows| && p in rows[i]
  {
    rows[i := Spliced(rows[i], Place(rows[i], p), x)]
  }

  lemma TowerSpliced(rows: seq<Row>, head: Node, maxHeight: nat, nodes: set<Node>, x: Node, prev: seq<Node>, height: nat, i: nat)
    requires Tower(rows, head, maxHeight, nodes) && Aimed(rows, head, x, prev, height, i)
    requires i < height <= maxHeight && x in nodes
    ensures Tower(SplicedRows(rows, i, prev[i], x), head, maxHeight, nodes)
    ensures Aimed(SplicedRows(rows, i, prev[i], x), head, x, prev, height, i + 1)
    ensures Grown(rows, SplicedRows(rows, i, prev[i], x))
  {
    hide Less, Splits;
    var k := Place(rows[i], prev[i]);
    var r := Spliced(rows[i], k, x);
    SplicedOrdered(rows[i], head, k, x);
    SplicedHolds(rows[i], k, x);
  }

  // What the search found serves for every level the new node reaches.
  lemma AimsAtStart(rows: seq<Row>, head: Node, maxHeight: nat, nodes: set<Node>, x: Node, prev: seq<Node>, height: nat)
    requires Tower(rows, head, maxHeight, nodes) && x !in nodes && 1 <= height <= MAX_HEIGHT && height <= |prev|
    requires forall l | 0 <= l < height :: if l < maxHeight then Precedes(prev[l], rows[l], x.entry.key) else prev[l] == head
    requires forall o | o in Entries(rows[0][1..]) :: o.key != x.entry.key
    ensures Aimed(rows, head, x, prev, height, 0)
    ensures Tower(rows, head, if height > maxHeight then height else maxHeight, nodes + {x})
  {
    hide Less;
    forall l: nat, n | l < MAX_HEIGHT && n in rows[l] && n != head
      ensures n.entry.key != x.entry.key
    {
      WithinLowest(rows, head, maxHeight, nodes, l, n);
      var s := rows[0][1..];
      assert n in s by {
        assert rows[0] == [head] + s;
      }
      var i :| 0 <= i < |s| && s[i] == n;
      assert Entries(s)[i] == n.entry;
    }
    assert head in rows[0];
  }

  lemma {:induction false} WithinLowest(rows: seq<Row>, head: Node, maxHeight: nat, nodes: set<Node>, l: nat, n: Node)
    requires Tower(rows, head, maxHeight, nodes) && l < MAX_HEIGHT && n in rows[l]
    ensures n in rows[0]
    decreases l
  {
    if l > 0 {
      assert Within(rows[l], rows[l - 1]);
      WithinLowest(rows, head, maxHeight, nodes, l - 1, n);
    }
  }

  lemma SplicedHolds(row: Row, k: nat, x: Node)
    requires k < |row|
    ensures forall n :: n in Spliced(row, k, x) <==> n in row || n == x
  {
    assert row == row[..k + 1] + row[k + 1..];
  }

  lemma WrittenSplicesRows(m: Links, rows: seq<Row>, head: Node, i: nat, p: Node, x: Node)
    requires AllLinked(m, rows) && i < |rows| && Ordered(rows[i], head) && p in rows[i] && x !in rows[i]
    requires p in m && |m[p]| > i && x in m && |m[x]| > i && m[x][i] == m[p][i]
    ensures AllLinked(Written(m, p, i, x), SplicedRows(rows, i, p, x))
  {
    hide Linked, Ordered, Spliced;
    var r := SplicedRows(rows, i, p, x);
    forall l: nat | l < |r|
      ensures Linked(Written(m, p, i, x), r[l], l)
    {
      assert Linked(m, rows[l], l);
      if l == i {
        LinkedAt(m, rows[i], i, Place(rows[i], p));
        WrittenSplices(m, rows[i], head, i, Place(rows[i], p), x);
      } else {
        WrittenLinked(m, rows[l], l, p, i, x);
      }
    }
  }

  lemma LinkedAt(m: Links, row: Row, level: nat, k: nat)
    requires Linked(m, row, level) && k < |row|
    ensures row[k] in m && |m[row[k]]| > level && m[row[k]][level] == After(row, k)
  {
  }

  lemma EntriesSpliced(row: Row, k: nat, x: Node)
    requires k < |row|
    ensures var s := Entries(row[1..]);
      Entries(Spliced(row, k, x)[1..]) == s[..k] + [x.entry] + s[k..]
  {
    assert Spliced(row, k, x)[1..] == row[1..][..k] + [x] + row[1..][k..];
  }

  lemma ContentsSpliced(rows: seq<Row>, head: Node, i: nat, p: Node, x: Node)
    requires i < |rows| && rows[0] != [] && Ordered(rows[i], head) && Precedes(p, rows[i], x.entry.key)
    ensures i > 0 ==> SplicedRows(rows, i, p, x)[0] == rows[0]
    ensures i == 0 ==> Entries(SplicedRows(rows, i, p, x)[0][1..]) == InsertSorted(Entries(rows[0][1..]), x.entry)
  {
    hide Less, LowerBound;
    if i == 0 {
      var row, k := rows[0], Place(rows[0], p);
      SplitsAll(row, head, x.entry.key, k);
      SplitIsBound(row, x.entry.key, k);
      EntriesSpliced(row, k, x);
    }
  }

  // The local variables of Insert, kept where readers can run between its writes.
  class Insertion {
    const list: SkipList
    const x: Node
    const height: nat
    const prev: seq<Node>
    var i: nat
    var armed: bool

    ghost predicate Ready()
      reads this, list, list.nodes
    {
      && list.Valid() && Aimed(list.rows, list.head, x, prev, height, i)
      && height <= list.maxHeight && x in list.nodes && |x.next| == height
      && (armed ==> i < height && prev[i] in list.rows[i] && |prev[i].next| > i && x.next[i] == prev[i].next[i])
    }

    // Insert up to its loop.
    constructor (list: SkipList, e: Entry, height: nat)
      requires list.Valid() && 1 <= height <= MAX_HEIGHT
      requires forall o | o in list.Contents() :: o.key != e.key
      modifies list
      ensures Ready() && i == 0 && !armed && this.list == list && this.height == height && x.entry == e
      ensures list.rows == old(list.rows) && fresh(x) && list.nodes == old(list.nodes) + {x}
    {
      hide Tower, Aimed, AllLinked, Precedes, Linked, Less;
      var next, prev := list.FindGreaterOrEqual(e.key);
      if height > list.maxHeight {
        prev := prev + seq(height - list.maxHeight, _ => list.head);
        list.maxHeight := height;
      }
      this.list, this.height, this.prev := list, height, prev;
      x := new Node(e, height);
      i, armed := 0, false;
      new;
      AimsAtStart(list.rows, list.head, old(list.maxHeight), list.nodes, x, this.prev, height);
      StillLinked(Snapshot(list.nodes), Snapshot(list.nodes + {x}), list.rows);
      list.nodes := list.nodes + {x};
    }

    // One pointer write.
    method Step()
      requires Ready() && i < height
      modifies this, x, prev[i], list`rows
      ensures Ready() && (Grown(old(list.rows), list.rows) || list.rows == old(list.rows))
      ensures !old(armed) ==> armed && i == old(i) && list.rows == old(list.rows)
      ensures old(armed) ==> !armed && i == old(i) + 1
      ensures list.Contents() == if old(armed) && old(i) == 0 then InsertSorted(old(list.Contents()), x.entry) else old(list.Contents())
      ensures old(armed) ==> list.rows == SplicedRows(old(list.rows), old(i), prev[old(i)], x)
    {
      hide Tower, AllLinked, Aimed, Grown, SplicedRows;
      if !armed {
        Arm();
      } else {
        Publish();
      }
    }

    // The new node is pointed at what follows its place on the level; no reader sees it yet.
    method Arm()
      requires Ready() && i < height && !armed
      modifies `armed, x
      ensures Ready() && armed
    {
      hide Tower, Precedes, Ordered, AllLinked, Aimed;
      PrevFacts();
      ghost var m, y := Snapshot(list.nodes), prev[i].next[i];
      WrittenAside(m, list.rows, x, i, y);
      x.next := x.next[i := prev[i].next[i]];
      SnapshotWritten(m, Snapshot(list.nodes), list.rows, x, i, y);
      armed := true;
    }

    // The node before is pointed at the new one, which is now on the level.
    method Publish()
      requires Ready() && armed
      modifies `armed, `i, prev[i], list`rows
      ensures Ready() && !armed && i == old(i) + 1 && Grown(old(list.rows), list.rows)
      ensures list.rows == SplicedRows(old(list.rows), old(i), prev[old(i)], x)
      ensures list.Contents() == if old(i) == 0 then InsertSorted(old(list.Contents()), x.entry) else old(list.Contents())
    {
      hide Tower, Precedes, Ordered, AllLinked, Aimed, Grown, SplicedRows;
      PrevFacts();
      ghost var m := Snapshot(list.nodes);
      WrittenSplicesRows(m, list.rows, list.head, i, prev[i], x);
      prev[i].next := prev[i].next[i := x];
      list.rows := SplicedRows(list.rows, i, prev[i], x);
      SnapshotWritten(m, Snapshot(list.nodes), list.rows, prev[i], i, x);
      ContentsSpliced(old(list.rows), list.head, i, prev[i], x);
      TowerSpliced(old(list.rows), list.head, list.maxHeight, list.nodes, x, prev, height, i);
      i, armed := i + 1, false;
    }

    lemma PrevFacts()
      requires Ready() && i < height
      ensures i < |list.rows| && i < |prev| && list.rows[0] != []
      ensures Precedes(prev[i], list.rows[i], x.entry.key)
      ensures x != prev[i] && x !in list.rows[i] && prev[i] in list.rows[i] && Ordered(list.rows[i], list.head)
      ensures prev[i] in list.nodes && |prev[i].next| > i
    {
      assert Precedes(prev[i], list.rows[i], x.entry.key);
      assert Linked(Snapshot(list.nodes), list.rows[i], i) && Ordered(list.rows[i], list.head);
      var k := Place(list.rows[i], prev[i]);
    }
  }

  // The contents after some entries have been inserted, one after another.
  function Inserted(s: seq<Entry>, es: seq<Entry>): seq<Entry> {
    if es == [] then s else InsertSorted(Inserted(s, es[..|es| - 1]), es[|es| - 1])
  }

  lemma {:induction false} InsertedMembers(s: seq<Entry>, es: seq<Entry>)
    ensures forall x | x in Inserted(s, es) :: x in s || x in es
    decreases |es|
  {
    hide LowerBound;
    if es != [] {
      InsertedMembers(s, es[..|es| - 1]);
    }
  }

  // No key twice, in the list or among what is to come.
  ghost predicate AllNew(s: seq<Entry>, es: seq<Entry>) {
    && (forall x, y | x in s && y in es :: x.key != y.key)
    && (forall i, j | 0 <= i < j < |es| :: es[i].key != es[j].key)
  }

  lemma NextIsNew(s: seq<Entry>, es: seq<Entry>, k: nat)
    requires AllNew(s, es) && k < |es|
    ensures forall x | x in Inserted(s, es[..k]) :: x.key != es[k].key
    ensures Inserted(s, es[..k + 1]) == InsertSorted(Inserted(s, es[..k]), es[k])
  {
    hide InsertSorted;
    InsertedMembers(s, es[..k]);
    assert es[..k + 1][..k] == es[..k];
    forall x | x in Inserted(s, es[..k])
      ensures x.key != es[k].key
    {
      if x !in s {
        var i :| 0 <= i < k && es[..k][i] == x;
      }
    }
  }

  // A writer that inserts one entry after another: k of them are begun, the last is perhaps under way.
  ghost predicate Writing(list: SkipList, ins: Insertion?, es: seq<Entry>, k: nat, was: seq<Entry>)
    reads list, list.nodes, ins
  {
    && list.Valid() && k <= |es| && AllNew(was, es)
    && (ins != null ==> ins.list == list && ins.Ready() && ins.i < ins.height && k > 0 && ins.x.entry == es[k - 1])
    && list.Contents() == Inserted(was, es[..In(ins, k)])
  }

  // Its next turn: it begins an insertion, or makes one pointer write.
  method WriterTurn(list: SkipList, ins: Insertion?, es: seq<Entry>, heights: seq<nat>, k: nat, ghost was: seq<Entry>)
    returns (ins': Insertion?, k': nat)
    requires Writing(list, ins, es, k, was) && |es| == |heights| && (ins != null || k < |es|)
    requires forall h | h in heights :: 1 <= h <= MAX_HEIGHT
    modifies list, list.nodes, ins, if ins == null then null else ins.x
    ensures Writing(list, ins', es, k', was) && (Grown(old(list.rows), list.rows) || list.rows == old(list.rows))
    ensures if ins == null then k' == k + 1 && ins' != null && fresh(ins') && fresh(ins'.x)
            else k' == k && (ins' == ins || ins' == null)
    ensures ins' != null ==> ins'.x in list.nodes
    ensures ins != null ==> Left(ins') < old(Left(ins))
    ensures In(ins', k') >= old(In(ins, k))
    ensures old(list.nodes) <= list.nodes && fresh(list.nodes - old(list.nodes))
  {
    hide Tower, AllLinked, Aimed, Less, Grown, InsertSorted, Precedes, AllNew;
    ins', k' := ins, k;
    if ins == null {
      NextIsNew(was, es, k);
      assert heights[k] in heights;
      ins' := new Insertion(list, es[k], heights[k]);
      k' := k + 1;
    } else {
      ins.PrevFacts();
      NextIsNew(was, es, k - 1);
      ins.Step();
      if ins.i == ins.height {
        ins' := null;
      }
    }
  }

  // A reader without the lock, beside such a writer, their turns in any order: the reader may start
  // between insertions or at any moment of one, with the greatest height as it is or was, and go on
  // through several.  Whatever it searches for, what it finds is right for what the list holds when
  // it finds it, which is what it held at first and the entries inserted so far.
  method Race(list: SkipList, search: Search, seen: nat, start: Insertion?, begun: nat, es: seq<Entry>, heights: seq<nat>,
              schedule: seq<bool>, ghost was: seq<Entry>)
    returns (found: Node?, ghost n: nat)
    requires Writing(list, start, es, begun, was) && |es| == |heights| && 1 <= seen <= list.maxHeight
    requires forall h | h in heights :: 1 <= h <= MAX_HEIGHT
    modifies list, list.nodes, start
    ensures list.Valid() && list.Answers(search, found)
    ensures old(In(start, begun)) <= n <= |es| && list.Contents() == Inserted(was, es[..n])
  {
    hide Tower, AllLinked, Aimed, Less, Grown, InsertSorted, Precedes, AllNew, SkipList.Answers, Insertion.Ready, Inserted, Left;
    list.StartsOnWay(search, seen);
    StartKnown(start, list);
    var level: nat, at, done, turn, k: nat := seen - 1, list.head, false, 0, begun;
    var ins := start;
    found := null;
    while !done
      invariant Writing(list, ins, es, k, was) && level < |list.rows| && list.OnWay(search, at, level)
      invariant old(list.nodes) <= list.nodes && fresh(list.nodes - old(list.nodes))
      invariant ins != null ==> (ins == start || fresh(ins)) && ins.x in list.nodes
      invariant old(In(start, begun)) <= In(ins, k)
      invariant done ==> list.Answers(search, found)
      decreases !done, |es| - k, Left(ins), level, list.Far(at, level)
    {
      if turn < |schedule| && schedule[turn] && (ins != null || k < |es|) {
        ghost var before := list.rows;
        ins, k := WriterTurn(list, ins, es, heights, k, was);
        StaysOnPath(before, list.rows, at, level);
      } else {
        at, level, done, found := list.Turn(search, at, level);
      }
      turn := turn + 1;
    }
    n := In(ins, k);
  }

  lemma StartKnown(ins: Insertion?, list: SkipList)
    requires ins != null ==> ins.list == list && ins.Ready()
    ensures ins != null ==> ins.x in list.nodes
  {
  }

  // How many entries are in the list, of k begun.
  ghost function In(ins: Insertion?, k: nat): nat
    reads ins
  {
    if ins != null && ins.i == 0 && k > 0 then k - 1 else k
  }

  // How many pointer writes an insertion has before it.
  ghost function Left(ins: Insertion?): nat
    reads ins
  {
    if ins == null || ins.height < ins.i then 0 else 1 + 2 * (ins.height - ins.i) + (if ins.armed then 0 else 1)
  }

  // A reader's place is not lost to a writer.
  lemma StaysOnPath(before: seq<Row>, after: seq<Row>, x: Node, level: nat)
    requires (Grown(before, after) || before == after) && level < |before| && x in before[level]
    ensures level < |after| && x in after[level]
  {
    assert Grown(before, after) ==> Within(before[level], after[level]);
  }
}

// The memtable over its skip list (db/memtable.cc).
module MemTables {
  import opened Keys
  import opened History
  import opened Iterators
  import opened SkipLists

  // What LookupKey finds in memory: nothing, a deletion, or a value.
  datatype Lookup = Missing | Deleted | Present(value: Bytes)

  function LookupOf(r: Option<Entry>): Lookup {
    match r
    case None => Missing
    case Some(e) => if e.key.kind == Put then Present(e.value) else Deleted
  }

  class MemTable {
    const table: SkipList

    ghost predicate Valid()
      reads table, table.nodes
    {
      table.Valid() && Sorted(table.Contents())
    }

    ghost function Holds(): set<Entry>
      requires Valid()
      reads table, table.nodes
    {
      Elements(table.Contents())
    }

    constructor (any: Entry)
      ensures Valid() && Holds() == {} && fresh(table) && fresh(table.nodes)
    {
      table := new SkipList(any);
    }

    method Add(seqno: Sequence, kind: ValueType, user: UserKey, value: Bytes, height: nat)
      requires Valid() && 1 <= height <= MAX_HEIGHT
      requires forall o | o in Holds() :: o.key != InternalKey(user, seqno, kind)
      modifies table, table.nodes
      ensures Valid() && Holds() == old(Holds()) + {Entry(InternalKey(user, seqno, kind), value)}
      ensures fresh(table.nodes - old(table.nodes))
    {
      var e := Entry(InternalKey(user, seqno, kind), value);
      InsertSortedHolds(table.Contents(), e);
      table.Insert(e, height);
    }

    // The newest entry of the user key at or below the snapshot.
    method Get(user: UserKey, snap: Sequence) returns (r: Lookup)
      requires Valid() && Distinct(Holds())
      ensures r == LookupOf(Newest(Holds(), user, snap))
    {
      var n, prev := table.FindGreaterOrEqual(LookupKey(user, snap));
      ghost var s := table.Contents();
      SearchRunFindsNewest(s, user, snap);
      ghost var i := LowerBound(s, LookupKey(user, snap));
      assert i < |s| ==> s[i] == table.rows[0][i + 1].entry;
      if n != null && n.entry.key.user == user {
        match n.entry.key.kind
        case Put => return Present(n.entry.value);
        case Deletion => return Deleted;
      }
      return Missing;
    }
  }
}
