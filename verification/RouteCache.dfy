/**
 * The route cache of a datagram socket (zxio/dgram_cache.cc): maximum payload sizes by
 * destination, guarded by validity tokens and bounded by a least-recently-used list.
 *
 * The socket server and the kernel answer as they please; what they answer in one turn of
 * the loop is a value, so every statement is about every behaviour of theirs.
 */
module RouteCache {
  import opened Wrappers

  type Address = nat
  type Interface = nat
  type Token = nat

  /** The local interface and address that a message is to be sent from, if any. */
  type Source = Option<(Interface, Address)>

  /** The position of a node in the list; it stays the node's own while others come and go. */
  type NodeId = nat

  const MAX_ENTRIES: nat := 512
  const WAIT_MANY_MAX_ITEMS: nat := 64

  datatype Key = Key(remote: Address, local: Source)

  datatype Node = Node(id: NodeId, key: Key)

  datatype Entry = Entry(tokens: seq<Token>, size: nat, node: NodeId)

  datatype Cache = Cache(entries: map<Key, Entry>, lru: seq<Node>, nextId: NodeId, connected: Option<Address>)

  const EMPTY: Cache := Cache(map[], [], 0, None)

  // ------------------------------------------------------------- lists of keys

  function Keys(lru: seq<Node>): seq<Key> {
    seq(|lru|, i requires 0 <= i < |lru| => lru[i].key)
  }

  function Without(keys: seq<Key>, k: Key): seq<Key> {
    if keys == [] then [] else if keys[0] == k then keys[1..] else [keys[0]] + Without(keys[1..], k)
  }

  /** The keys of a history, most recently used first. */
  function Recent(history: seq<Key>): seq<Key> {
    if history == [] then []
    else
      var last := history[|history| - 1];
      [last] + Without(Recent(history[..|history| - 1]), last)
  }

  ghost predicate Distinct<T>(s: seq<T>) {
    forall i, j :: 0 <= i < j < |s| ==> s[i] != s[j]
  }

  /** erase(it): the node with this id leaves the list. */
  function Erase(lru: seq<Node>, id: NodeId): seq<Node> {
    if lru == [] then [] else if lru[0].id == id then lru[1..] else [lru[0]] + Erase(lru[1..], id)
  }

  lemma {:induction false} WithoutMembers(keys: seq<Key>, k: Key)
    requires Distinct(keys)
    ensures forall x :: x in Without(keys, k) <==> x in keys && x != k
    ensures Distinct(Without(keys, k))
    ensures |Without(keys, k)| == if k in keys then |keys| - 1 else |keys|
  {
    if keys != [] && keys[0] != k {
      WithoutMembers(keys[1..], k);
      assert keys == [keys[0]] + keys[1..];
      assert k in keys <==> k in keys[1..];
      assert keys[0] !in keys[1..];
      assert keys[0] !in Without(keys[1..], k);
    } else if keys != [] {
      assert keys == [k] + keys[1..];
    }
  }

  lemma WithoutHead(x: Key, rest: seq<Key>, k: Key)
    ensures Without([x] + rest, k) == if x == k then rest else [x] + Without(rest, k)
  {
    var keys := [x] + rest;
    assert keys[0] == x && keys[1..] == rest;
  }

  lemma {:induction false} WithoutAbsent(a: seq<Key>, k: Key)
    requires k !in a
    ensures Without(a, k) == a
  {
    if a != [] {
      WithoutAbsent(a[1..], k);
      assert a == [a[0]] + a[1..];
    }
  }

  lemma KeysAssoc(a: seq<Key>, b: seq<Key>, c: seq<Key>)
    ensures (a + b) + c == a + (b + c)
  {
  }

  lemma {:induction false} WithoutAppend(a: seq<Key>, b: seq<Key>, k: Key)
    ensures Without(a + b, k) == if k in a then Without(a, k) + b else a + Without(b, k)
  {
    if a == [] {
      assert a + b == b && a + Without(b, k) == Without(b, k);
      return;
    }
    var x, rest := a[0], a[1..];
    assert a == [x] + rest;
    KeysAssoc([x], rest, b);
    WithoutHead(x, rest + b, k);
    WithoutHead(x, rest, k);
    if x != k {
      WithoutAppend(rest, b, k);
      if k in rest {
        KeysAssoc([x], Without(rest, k), b);
      } else {
        KeysAssoc([x], rest, Without(b, k));
      }
    }
  }

  /** Using a key keeps a list of the n most recently used keys such a list. */
  lemma UsePrefix(keys: seq<Key>, recent: seq<Key>, k: Key)
    requires keys <= recent
    ensures [k] + Without(keys, k) <= [k] + Without(recent, k)
  {
    assert recent == keys + recent[|keys|..];
    WithoutAppend(keys, recent[|keys|..], k);
    if k !in keys { WithoutAbsent(keys, k); }
  }

  lemma {:induction false} EraseAt(lru: seq<Node>, i: nat)
    requires i < |lru| && forall a, b :: 0 <= a < b < |lru| ==> lru[a].id != lru[b].id
    ensures Erase(lru, lru[i].id) == lru[..i] + lru[i + 1..]
  {
    if i == 0 {
      assert lru[..0] + lru[1..] == lru[1..];
    } else {
      var rest := lru[1..];
      assert lru[0].id != lru[i].id && rest[i - 1] == lru[i];
      EraseAt(rest, i - 1);
      assert lru[..i] == [lru[0]] + rest[..i - 1] && rest[i..] == lru[i + 1..];
      assert [lru[0]] + (rest[..i - 1] + rest[i..]) == ([lru[0]] + rest[..i - 1]) + rest[i..];
    }
  }

  lemma {:induction false} WithoutAt(keys: seq<Key>, i: nat)
    requires i < |keys| && Distinct(keys)
    ensures Without(keys, keys[i]) == keys[..i] + keys[i + 1..]
  {
    if i == 0 {
      assert keys[..0] + keys[1..] == keys[1..];
    } else {
      assert keys[0] != keys[i] && keys[1..][i - 1] == keys[i];
      WithoutAt(keys[1..], i - 1);
      assert keys[..i] == [keys[0]] + keys[1..][..i - 1] && keys[1..][i..] == keys[i + 1..];
    }
  }

  // -------------------------------------------------------------- touch and store

  /** The entry's node goes to the front, unless it is there already. */
  function MoveToFront(c: Cache, k: Key): Cache
    requires k in c.entries
  {
    var entry := c.entries[k];
    if c.lru != [] && c.lru[0].id == entry.node then c
    else AddToFront(c.(lru := Erase(c.lru, entry.node)), k)
  }

  function AddToFront(c: Cache, k: Key): Cache
    requires k in c.entries
  {
    c.(lru := [Node(c.nextId, k)] + c.lru, nextId := c.nextId + 1,
       entries := c.entries[k := c.entries[k].(node := c.nextId)])
  }

  /** A full cache gives up the key at the back of the list. */
  function Evict(c: Cache): Cache {
    if |c.entries| < MAX_ENTRIES || c.lru == [] then c
    else
      var back := c.lru[|c.lru| - 1].key;
      c.(entries := c.entries - {back}, lru := c.lru[..|c.lru| - 1])
  }

  function SetEntry(c: Cache, k: Key, size: nat, tokens: seq<Token>): Cache {
    var node := if k in c.entries then c.entries[k].node else 0;
    c.(entries := c.entries[k := Entry(tokens, size, node)])
  }

  /** A reply is stored: make room, set the entry, put it to the front. */
  function Store(c: Cache, k: Key, size: nat, tokens: seq<Token>): Cache {
    var c1 := Evict(c);
    var c2 := SetEntry(c1, k, size, tokens);
    if k in c1.entries then MoveToFront(c2, k) else AddToFront(c2, k)
  }

  // ------------------------------------------------------------- what has happened

  /** What the surroundings of the cache could record: a hit on a key, or a reply of the server. */
  datatype Fact = Used(key: Key) | Replied(key: Key, size: nat, tokens: seq<Token>)

  function History(log: seq<Fact>): seq<Key> {
    seq(|log|, i requires 0 <= i < |log| => log[i].key)
  }

  /** The last reply for a key. */
  function LatestReply(log: seq<Fact>, k: Key): Option<(nat, seq<Token>)> {
    if log == [] then None
    else
      var last := log[|log| - 1];
      if last.Replied? && last.key == k then Some((last.size, last.tokens)) else LatestReply(log[..|log| - 1], k)
  }

  lemma LogGrows(log: seq<Fact>, f: Fact)
    ensures History(log + [f]) == History(log) + [f.key]
    ensures forall k :: LatestReply(log + [f], k) ==
              if f.Replied? && f.key == k then Some((f.size, f.tokens)) else LatestReply(log, k)
  {
    assert (log + [f])[..|log|] == log;
  }

  // ------------------------------------------------------------------- invariant

  /** Keys and ids occur once, and ids were handed out before. */
  ghost predicate ListOk(lru: seq<Node>, nextId: NodeId) {
    && Distinct(Keys(lru))
    && (forall i, j :: 0 <= i < j < |lru| ==> lru[i].id != lru[j].id)
    && (forall n :: n in lru ==> n.id < nextId)
  }

  /** Every node of the list is the node of the entry under its key. */
  ghost predicate Points(entries: map<Key, Entry>, lru: seq<Node>) {
    forall n :: n in lru ==> n.key in entries && entries[n.key].node == n.id
  }

  ghost predicate Placed(c: Cache) {
    && ListOk(c.lru, c.nextId) && Points(c.entries, c.lru)
    && (forall k :: k in c.entries <==> k in Keys(c.lru))
    && |c.entries| == |c.lru|
  }

  /** Entries are the latest replies, and have few enough tokens to wait for at once. */
  ghost predicate Current(c: Cache, log: seq<Fact>) {
    forall k :: k in c.entries ==>
      && LatestReply(log, k) == Some((c.entries[k].size, c.entries[k].tokens))
      && |c.entries[k].tokens| < WAIT_MANY_MAX_ITEMS
  }

  /** The cache holds the n most recently used keys, in that order, for some n up to the bound,
      each with the latest reply for it. */
  ghost predicate Valid(c: Cache, log: seq<Fact>) {
    Placed(c) && Current(c, log) && |c.lru| <= MAX_ENTRIES && Keys(c.lru) <= Recent(History(log))
  }

  lemma IndexOf(c: Cache, k: Key) returns (i: nat)
    requires Placed(c) && k in c.entries
    ensures i < |c.lru| && c.lru[i] == Node(c.entries[k].node, k)
  {
    i :| 0 <= i < |c.lru| && Keys(c.lru)[i] == k;
    assert c.lru[i] in c.lru;
  }

  lemma PushNode(lru: seq<Node>, n: Node)
    requires ListOk(lru, n.id) && n.key !in Keys(lru)
    ensures Keys([n] + lru) == [n.key] + Keys(lru) && ListOk([n] + lru, n.id + 1)
  {
    assert Keys([n] + lru) == [n.key] + Keys(lru);
    assert forall i :: 0 <= i < |lru| ==> lru[i] in lru;
  }

  lemma CutNode(lru: seq<Node>, nextId: NodeId, i: nat)
    requires ListOk(lru, nextId) && i < |lru|
    ensures var cut := lru[..i] + lru[i + 1..];
            && ListOk(cut, nextId) && Keys(cut) == Without(Keys(lru), lru[i].key)
            && (forall n :: n in cut ==> n in lru)
            && (forall k :: k in Keys(cut) <==> k in Keys(lru) && k != lru[i].key)
  {
    var cut := lru[..i] + lru[i + 1..];
    assert Keys(lru)[i] == lru[i].key;
    assert Keys(cut) == Keys(lru)[..i] + Keys(lru)[i + 1..];
    WithoutAt(Keys(lru), i);
    WithoutMembers(Keys(lru), lru[i].key);
    assert forall j :: 0 <= j < |cut| ==> cut[j] == lru[if j < i then j else j + 1];
  }

  /** One entry has no node in the list yet. */
  ghost predicate PlacedBut(c: Cache, k: Key) {
    && ListOk(c.lru, c.nextId) && Points(c.entries, c.lru)
    && k in c.entries && k !in Keys(c.lru)
    && (forall x :: x in c.entries <==> x in Keys(c.lru) || x == k)
    && |c.entries| == |c.lru| + 1
  }

  lemma KeyOfNode(lru: seq<Node>, n: Node)
    requires n in lru
    ensures n.key in Keys(lru)
  {
    var i :| 0 <= i < |lru| && lru[i] == n;
    assert Keys(lru)[i] == n.key;
  }

  lemma AddToFrontKeeps(c: Cache, k: Key)
    requires PlacedBut(c, k)
    ensures Placed(AddToFront(c, k)) && Keys(AddToFront(c, k).lru) == [k] + Keys(c.lru)
  {
    var c' := AddToFront(c, k);
    PushNode(c.lru, Node(c.nextId, k));
    assert c'.entries.Keys == c.entries.Keys;
    forall n | n in c'.lru
      ensures n.key in c'.entries && c'.entries[n.key].node == n.id
    {
      if n in c.lru { KeyOfNode(c.lru, n); }
    }
  }

  lemma ErasedIsPlacedBut(c: Cache, k: Key)
    requires Placed(c) && k in c.entries
    ensures PlacedBut(c.(lru := Erase(c.lru, c.entries[k].node)), k)
    ensures Keys(Erase(c.lru, c.entries[k].node)) == Without(Keys(c.lru), k)
  {
    var i := IndexOf(c, k);
    EraseAt(c.lru, i);
    CutNode(c.lru, c.nextId, i);
  }

  lemma FrontStays(c: Cache, k: Key)
    requires Placed(c) && k in c.entries && c.lru != [] && c.lru[0].id == c.entries[k].node
    ensures Keys(c.lru) == [k] + Without(Keys(c.lru), k)
  {
    var i := IndexOf(c, k);
    assert i == 0 && Keys(c.lru)[0] == k;
    assert Keys(c.lru) == [k] + Keys(c.lru)[1..];
  }

  lemma MoveToFrontKeeps(c: Cache, k: Key)
    requires Placed(c) && k in c.entries
    ensures Placed(MoveToFront(c, k)) && Keys(MoveToFront(c, k).lru) == [k] + Without(Keys(c.lru), k)
  {
    var node := c.entries[k].node;
    if c.lru != [] && c.lru[0].id == node {
      FrontStays(c, k);
      return;
    }
    var cut := c.(lru := Erase(c.lru, node));
    ErasedIsPlacedBut(c, k);
    AddToFrontKeeps(cut, k);
    assert MoveToFront(c, k) == AddToFront(cut, k);
  }

  lemma EvictList(c: Cache)
    requires Placed(c) && |c.entries| == MAX_ENTRIES
    ensures var (lru, back) := (Evict(c).lru, c.lru[|c.lru| - 1].key);
            && ListOk(lru, c.nextId) && Keys(lru) == Keys(c.lru)[..|c.lru| - 1]
            && (forall k :: k in Keys(lru) <==> k in Keys(c.lru) && k != back)
            && (forall m :: m in lru ==> m in c.lru)
  {
    var n := |c.lru| - 1;
    assert c.lru[..n] + c.lru[n + 1..] == c.lru[..n];
    CutNode(c.lru, c.nextId, n);
    assert Keys(c.lru[..n]) == Keys(c.lru)[..n];
  }

  lemma EvictPoints(c: Cache)
    requires Placed(c) && |c.entries| == MAX_ENTRIES
    ensures Points(Evict(c).entries, Evict(c).lru)
  {
    EvictList(c);
    forall m | m in Evict(c).lru
      ensures m.key in Evict(c).entries && Evict(c).entries[m.key].node == m.id
    {
      KeyOfNode(Evict(c).lru, m);
    }
  }

  lemma EvictedKeys(c: Cache)
    requires Placed(c) && |c.entries| == MAX_ENTRIES
    ensures c.lru[|c.lru| - 1].key in c.entries && Evict(c).entries.Keys == c.entries.Keys - {c.lru[|c.lru| - 1].key}
  {
    assert c.lru[|c.lru| - 1] in c.lru;
  }

  lemma EvictPlaced(c: Cache)
    requires Placed(c) && |c.entries| == MAX_ENTRIES
    ensures Placed(Evict(c)) && Keys(Evict(c).lru) == Keys(c.lru)[..|c.lru| - 1]
  {
    EvictList(c);
    EvictPoints(c);
    EvictedKeys(c);
    assert |Evict(c).entries.Keys| == |Evict(c).lru|;
  }

  lemma EvictKeeps(c: Cache, log: seq<Fact>)
    requires Valid(c, log)
    ensures Valid(Evict(c), log) && |Evict(c).lru| < MAX_ENTRIES
  {
    if |c.entries| < MAX_ENTRIES {
      return;
    }
    var c' := Evict(c);
    EvictPlaced(c);
    EvictCurrent(c, log);
    assert Keys(c'.lru) <= Keys(c.lru);
  }

  lemma EvictCurrent(c: Cache, log: seq<Fact>)
    requires Current(c, log)
    ensures Current(Evict(c), log)
  {
  }

  lemma SetEntryPlaced(c: Cache, k: Key, size: nat, tokens: seq<Token>)
    requires Placed(c)
    ensures var c' := SetEntry(c, k, size, tokens); if k in c.entries then Placed(c') else PlacedBut(c', k)
  {
    var c' := SetEntry(c, k, size, tokens);
    assert c'.entries.Keys == c.entries.Keys + {k};
    assert c.lru == c'.lru;
  }

  lemma UseKeeps(c: Cache, c': Cache, log: seq<Fact>, f: Fact)
    requires Keys(c.lru) <= Recent(History(log)) && Keys(c'.lru) == [f.key] + Without(Keys(c.lru), f.key)
    ensures Keys(c'.lru) <= Recent(History(log + [f]))
  {
    LogGrows(log, f);
    var h := History(log + [f]);
    assert h[..|h| - 1] == History(log);
    UsePrefix(Keys(c.lru), Recent(History(log)), f.key);
  }

  lemma TouchCurrent(c: Cache, log: seq<Fact>, k: Key)
    requires Current(c, log) && k in c.entries
    ensures Current(MoveToFront(c, k), log + [Used(k)])
  {
    LogGrows(log, Used(k));
  }

  lemma TouchKeeps(c: Cache, log: seq<Fact>, k: Key)
    requires Valid(c, log) && k in c.entries
    ensures Valid(MoveToFront(c, k), log + [Used(k)])
  {
    var c' := MoveToFront(c, k);
    assert Placed(c') && Keys(c'.lru) == [k] + Without(Keys(c.lru), k) by { MoveToFrontKeeps(c, k); }
    assert |c'.lru| <= MAX_ENTRIES by { WithoutMembers(Keys(c.lru), k); }
    assert Current(c', log + [Used(k)]) by { TouchCurrent(c, log, k); }
    UseKeeps(c, c', log, Used(k));
  }

  lemma StorePlaced(c1: Cache, k: Key, size: nat, tokens: seq<Token>)
    requires Placed(c1)
    ensures var c2 := SetEntry(c1, k, size, tokens);
            var c3 := if k in c1.entries then MoveToFront(c2, k) else AddToFront(c2, k);
            Placed(c3) && Keys(c3.lru) == [k] + Without(Keys(c1.lru), k)
  {
    var c2 := SetEntry(c1, k, size, tokens);
    SetEntryPlaced(c1, k, size, tokens);
    if k !in Keys(c1.lru) { WithoutAbsent(Keys(c1.lru), k); }
    if k in c1.entries { MoveToFrontKeeps(c2, k); } else { AddToFrontKeeps(c2, k); }
  }

  lemma StoreCurrent(c1: Cache, log: seq<Fact>, k: Key, size: nat, tokens: seq<Token>)
    requires Current(c1, log) && |tokens| < WAIT_MANY_MAX_ITEMS
    ensures var c2 := SetEntry(c1, k, size, tokens);
            Current(if k in c1.entries then MoveToFront(c2, k) else AddToFront(c2, k), log + [Replied(k, size, tokens)])
  {
    LogGrows(log, Replied(k, size, tokens));
  }

  lemma StoreKeeps(c: Cache, log: seq<Fact>, k: Key, size: nat, tokens: seq<Token>)
    requires Valid(c, log) && |tokens| < WAIT_MANY_MAX_ITEMS
    ensures Valid(Store(c, k, size, tokens), log + [Replied(k, size, tokens)])
  {
    var c1, c', f := Evict(c), Store(c, k, size, tokens), Replied(k, size, tokens);
    EvictKeeps(c, log);
    assert Placed(c') && Keys(c'.lru) == [k] + Without(Keys(c1.lru), k) by { StorePlaced(c1, k, size, tokens); }
    assert Current(c', log + [f]) by { StoreCurrent(c1, log, k, size, tokens); }
    assert |Keys(c'.lru)| <= MAX_ENTRIES by { WithoutMembers(Keys(c1.lru), k); }
    assert Keys(c'.lru) <= Recent(History(log + [f])) by { UseKeeps(c1, c', log, f); }
  }

  // --------------------------------------------------------- most recently used first

  function LastUse(history: seq<Key>, k: Key): int {
    if history == [] then -1
    else if history[|history| - 1] == k then |history| - 1
    else LastUse(history[..|history| - 1], k)
  }

  lemma {:induction false} LastUseBound(history: seq<Key>, k: Key)
    ensures -1 <= LastUse(history, k) < |history|
    ensures LastUse(history, k) >= 0 <==> k in history
  {
    if history != [] && history[|history| - 1] != k {
      LastUseBound(history[..|history| - 1], k);
      assert history == history[..|history| - 1] + [history[|history| - 1]];
    }
  }

  ghost predicate ByLastUse(keys: seq<Key>, history: seq<Key>) {
    forall i, j :: 0 <= i < j < |keys| ==> LastUse(history, keys[i]) > LastUse(history, keys[j])
  }

  lemma WithoutByLastUse(keys: seq<Key>, history: seq<Key>, k: Key)
    requires ByLastUse(keys, history)
    ensures ByLastUse(Without(keys, k), history) && Distinct(keys)
  {
    assert Distinct(keys);
    if i :| 0 <= i < |keys| && keys[i] == k {
      WithoutAt(keys, i);
      CutByLastUse(keys, history, i);
    } else {
      WithoutAbsent(keys, k);
    }
  }

  lemma CutByLastUse(keys: seq<Key>, history: seq<Key>, i: nat)
    requires ByLastUse(keys, history) && i < |keys|
    ensures ByLastUse(keys[..i] + keys[i + 1..], history)
  {
    var cut := keys[..i] + keys[i + 1..];
    assert forall j :: 0 <= j < |cut| ==> cut[j] == keys[if j < i then j else j + 1];
  }

  /** Recent lists exactly the keys that were used, the last used first. */
  lemma {:induction false} RecentByLastUse(history: seq<Key>)
    ensures ByLastUse(Recent(history), history)
    ensures forall k :: k in Recent(history) <==> k in history
  {
    if history != [] {
      var front, last := history[..|history| - 1], history[|history| - 1];
      assert history == front + [last];
      RecentByLastUse(front);
      WithoutByLastUse(Recent(front), front, last);
      WithoutMembers(Recent(front), last);
      var keys := Recent(history);
      assert keys == [last] + Without(Recent(front), last);
      forall i, j | 0 <= i < j < |keys|
        ensures LastUse(history, keys[i]) > LastUse(history, keys[j])
      {
        LastUseBound(front, keys[j]);
        assert keys[j] == Without(Recent(front), last)[j - 1];
        assert keys[j] in Without(Recent(front), last);
        if i > 0 {
          assert keys[i] == Without(Recent(front), last)[i - 1];
          assert keys[i] in Without(Recent(front), last);
        }
      }
    }
  }

  lemma RecentKeyAt(c: Cache, history: seq<Key>, i: nat)
    requires Keys(c.lru) <= Recent(history) && i < |c.lru|
    ensures i < |Recent(history)| && Recent(history)[i] == c.lru[i].key
  {
    assert Keys(c.lru)[i] == c.lru[i].key;
  }

  /** The key that a full cache gives up was used before every key that it keeps. */
  lemma EvictsLeastRecentlyUsed(c: Cache, log: seq<Fact>, k: Key)
    requires Valid(c, log) && |c.entries| == MAX_ENTRIES && k in Evict(c).entries
    ensures var victim := c.lru[|c.lru| - 1].key;
            && Evict(c).entries.Keys == c.entries.Keys - {victim}
            && LastUse(History(log), k) > LastUse(History(log), victim)
  {
    EvictedKeys(c);
    var i := IndexOf(c, k);
    RecentKeyAt(c, History(log), i);
    RecentKeyAt(c, History(log), |c.lru| - 1);
    RecentByLastUse(History(log));
  }

  lemma StoreKeys(c: Cache, k: Key, size: nat, tokens: seq<Token>)
    ensures Store(c, k, size, tokens).entries.Keys == Evict(c).entries.Keys + {k}
  {
  }

  /** A store gives an entry up exactly when the cache is full, even if the key had one. */
  lemma StoreSize(c: Cache, k: Key, size: nat, tokens: seq<Token>)
    requires Placed(c) && |c.lru| <= MAX_ENTRIES
    ensures |Store(c, k, size, tokens).entries.Keys| ==
              if |c.entries| < MAX_ENTRIES then |c.entries.Keys + {k}|
              else if k in c.entries && k != c.lru[MAX_ENTRIES - 1].key then MAX_ENTRIES - 1
              else MAX_ENTRIES
  {
    StoreKeys(c, k, size, tokens);
    if |c.entries| == MAX_ENTRIES { EvictedKeys(c); }
  }

  /** Refreshing an entry loses another one if and only if the cache is full and the refreshed key
      is not the one at the back. */
  lemma RefreshLosesIff(c: Cache, k: Key, size: nat, tokens: seq<Token>)
    requires Placed(c) && |c.lru| <= MAX_ENTRIES && k in c.entries
    ensures Store(c, k, size, tokens).entries.Keys != c.entries.Keys <==>
              |c.entries| == MAX_ENTRIES && k != c.lru[MAX_ENTRIES - 1].key
  {
    StoreKeys(c, k, size, tokens);
    if |c.entries| == MAX_ENTRIES { EvictedKeys(c); }
  }

  // ------------------------------------------------------------------------- Get

  /** A failed call, or a code that the server gave (ErrOrOutCode). */
  datatype Error = Status(status: int) | Code(code: int)

  const EIO: Error := Code(5)

  /** What the kernel answers to the poll: whether the error signal is raised and which
      tokens' peers are closed at that moment; or the wait fails. */
  datatype Poll = Signals(error: bool, closed: set<Token>) | WaitFailed(status: int)

  datatype Reply =
    | CallFailed(status: int)
    | Refused(code: int)
    | Answer(to: Option<Address>, size: Option<nat>, tokens: Option<seq<Token>>)

  /** One turn of the loop, as its surroundings answer it. */
  datatype Round = Round(poll: Poll, pendingError: Option<Error>, reply: Reply)

  datatype Result = Size(size: nat) | Failed(error: Error)

  /** Either Get returns, or the loop goes on; preflight says whether the server was asked. */
  datatype Turn = Turn(cache: Cache, result: Option<Result>, preflight: bool)

  function Looked(c: Cache, remote: Option<Address>, local: Source): Option<Key> {
    match if remote.Some? then remote else c.connected
    case None => None
    case Some(a) => Some(Key(a, local))
  }

  predicate Hit(c: Cache, key: Option<Key>) {
    key.Some? && key.value in c.entries
  }

  predicate AnyClosed(tokens: seq<Token>, closed: set<Token>) {
    exists i :: 0 <= i < |tokens| && tokens[i] in closed
  }

  function Preflight(c: Cache, remote: Option<Address>, local: Source, reply: Reply): Turn {
    match reply
    case CallFailed(status) => Turn(c, Some(Failed(Status(status))), true)
    case Refused(code) => Turn(c, Some(Failed(Code(code))), true)
    case Answer(to, size, tokens) =>
      var addr := if remote.Some? then remote else to;
      if addr.None? || size.None? || tokens.None? then Turn(c, Some(Failed(EIO)), true)
      else
        var c' := Store(c, Key(addr.value, local), size.value, tokens.value);
        Turn(if remote.Some? then c' else c'.(connected := addr), None, true)
  }

  function OneTurn(c: Cache, remote: Option<Address>, local: Source, round: Round): Turn {
    var key := Looked(c, remote, local);
    match round.poll
    case WaitFailed(status) => Turn(c, Some(Failed(Status(status))), false)
    case Signals(error, closed) =>
      if error then
        match round.pendingError
        case Some(e) => Turn(c, Some(Failed(e)), false)
        case None => Turn(c, None, false)
      else if Hit(c, key) && !AnyClosed(c.entries[key.value].tokens, closed) then
        Turn(MoveToFront(c, key.value), Some(Size(c.entries[key.value].size)), false)
      else Preflight(c, remote, local, round.reply)
  }

  /** The answers a server and kernel can give: a reply has few enough tokens to wait for. */
  predicate Plausible(round: Round) {
    round.reply.Answer? && round.reply.tokens.Some? ==> |round.reply.tokens.value| < WAIT_MANY_MAX_ITEMS
  }

  /** The reply as the server gave it, if it is complete. */
  function ReplyFact(remote: Option<Address>, local: Source, reply: Reply): seq<Fact> {
    if reply.Answer? && (remote.Some? || reply.to.Some?) && reply.size.Some? && reply.tokens.Some? then
      var addr := if remote.Some? then remote.value else reply.to.value;
      [Replied(Key(addr, local), reply.size.value, reply.tokens.value)]
    else []
  }

  /** What a turn adds to the record: the reply if the server was asked, or the hit. */
  function Facts(c: Cache, remote: Option<Address>, local: Source, round: Round): seq<Fact> {
    var turn := OneTurn(c, remote, local, round);
    if turn.preflight then ReplyFact(remote, local, round.reply)
    else if turn.result.Some? && turn.result.value.Size? && Looked(c, remote, local).Some? then
      [Used(Looked(c, remote, local).value)]
    else []
  }

  datatype Call = Call(remote: Option<Address>, local: Source, rounds: seq<Round>)

  /** asked counts the preflights; log is the record of the call. */
  datatype Got = Got(cache: Cache, result: Option<Result>, asked: nat, log: seq<Fact>)

  /** Get over the rounds that follow; no result if it has not returned by the last of them. */
  function GetIn(c: Cache, remote: Option<Address>, local: Source, rounds: seq<Round>): Got
    decreases |rounds|
  {
    if rounds == [] then Got(c, None, 0, [])
    else
      var turn, facts := OneTurn(c, remote, local, rounds[0]), Facts(c, remote, local, rounds[0]);
      var asked := if turn.preflight then 1 else 0;
      if turn.result.Some? then Got(turn.cache, turn.result, asked, facts)
      else
        var rest := GetIn(turn.cache, remote, local, rounds[1..]);
        Got(rest.cache, rest.result, asked + rest.asked, facts + rest.log)
  }

  function GetOf(c: Cache, call: Call): Got {
    GetIn(c, call.remote, call.local, call.rounds)
  }

  lemma HitTurn(c: Cache, remote: Option<Address>, local: Source, round: Round)
    requires round.poll.Signals? && !round.poll.error && Hit(c, Looked(c, remote, local))
    requires !AnyClosed(c.entries[Looked(c, remote, local).value].tokens, round.poll.closed)
    ensures var k := Looked(c, remote, local).value;
            && OneTurn(c, remote, local, round) == Turn(MoveToFront(c, k), Some(Size(c.entries[k].size)), false)
            && Facts(c, remote, local, round) == [Used(k)]
  {
  }

  lemma AskTurn(c: Cache, remote: Option<Address>, local: Source, round: Round)
    requires round.poll.Signals? && !round.poll.error
    requires var key := Looked(c, remote, local);
             Hit(c, key) ==> AnyClosed(c.entries[key.value].tokens, round.poll.closed)
    ensures OneTurn(c, remote, local, round) == Preflight(c, remote, local, round.reply)
    ensures Facts(c, remote, local, round) == ReplyFact(remote, local, round.reply)
  {
  }

  lemma IdleTurn(c: Cache, remote: Option<Address>, local: Source, round: Round)
    requires round.poll.WaitFailed? || round.poll.error
    ensures OneTurn(c, remote, local, round).cache == c && Facts(c, remote, local, round) == []
  {
  }

  lemma ConnectKeeps(c: Cache, log: seq<Fact>, to: Option<Address>)
    requires Valid(c, log)
    ensures Valid(c.(connected := to), log)
  {
  }

  lemma PreflightKeeps(c: Cache, log: seq<Fact>, remote: Option<Address>, local: Source, reply: Reply)
    requires Valid(c, log) && (reply.Answer? && reply.tokens.Some? ==> |reply.tokens.value| < WAIT_MANY_MAX_ITEMS)
    ensures Valid(Preflight(c, remote, local, reply).cache, log + ReplyFact(remote, local, reply))
  {
    var after := Preflight(c, remote, local, reply).cache;
    if ReplyFact(remote, local, reply) == [] {
      assert after == c && log + [] == log;
      return;
    }
    var f := ReplyFact(remote, local, reply)[0];
    var c' := Store(c, f.key, f.size, f.tokens);
    StoreKeeps(c, log, f.key, f.size, f.tokens);
    if remote.Some? {
      assert after == c';
      return;
    }
    ConnectKeeps(c', log + [f], reply.to);
    assert after == c'.(connected := reply.to);
  }

  lemma TurnKeeps(c: Cache, log: seq<Fact>, remote: Option<Address>, local: Source, round: Round)
    requires Valid(c, log) && Plausible(round)
    ensures Valid(OneTurn(c, remote, local, round).cache, log + Facts(c, remote, local, round))
  {
    if round.poll.WaitFailed? || round.poll.error {
      IdleTurn(c, remote, local, round);
      assert log + [] == log;
      return;
    }
    var key := Looked(c, remote, local);
    if Hit(c, key) && !AnyClosed(c.entries[key.value].tokens, round.poll.closed) {
      HitTurn(c, remote, local, round);
      TouchKeeps(c, log, key.value);
      return;
    }
    AskTurn(c, remote, local, round);
    PreflightKeeps(c, log, remote, local, round.reply);
  }

  // ----------------------------------------------------------- when Get returns, and what

  /** The cache has a usable entry of this size for the address of the call, or for the connected
      one if the call has none. */
  ghost predicate Serves(c: Cache, remote: Option<Address>, local: Source, closed: set<Token>, size: nat) {
    exists a :: Some(a) == (if remote.Some? then remote else c.connected) && ServesAt(c, Key(a, local), closed, size)
  }

  predicate ServesAt(c: Cache, k: Key, closed: set<Token>, size: nat) {
    k in c.entries && c.entries[k].size == size && forall i :: 0 <= i < |c.entries[k].tokens| ==>
      c.entries[k].tokens[i] !in closed
  }

  /** The error that a reply stands for: a failed call, a refusal, or an answer without an address,
      a size or tokens. */
  function ReplyError(remote: Option<Address>, reply: Reply): Option<Error> {
    match reply
    case CallFailed(status) => Some(Status(status))
    case Refused(code) => Some(Code(code))
    case Answer(to, size, tokens) =>
      if size.Some? && tokens.Some? && (remote.Some? || to.Some?) then None else Some(EIO)
  }

  /** A round makes Get return r: a failed wait with its status, a raised error signal with the error
      that is pending, if any; otherwise a usable entry with its size, and without one the error of
      the reply. */
  ghost predicate Decides(c: Cache, remote: Option<Address>, local: Source, round: Round, r: Result) {
    match round.poll
    case WaitFailed(status) => r == Failed(Status(status))
    case Signals(error, closed) =>
      if error then round.pendingError.Some? && r == Failed(round.pendingError.value)
      else if r.Size? then Serves(c, remote, local, closed, r.size)
      else (forall n :: !Serves(c, remote, local, closed, n)) && ReplyError(remote, round.reply) == Some(r.error)
  }

  lemma ServesIff(c: Cache, remote: Option<Address>, local: Source, closed: set<Token>, n: nat)
    ensures var key := Looked(c, remote, local);
            Serves(c, remote, local, closed, n) <==>
            Hit(c, key) && c.entries[key.value].size == n && !AnyClosed(c.entries[key.value].tokens, closed)
  {
    var key := Looked(c, remote, local);
    if Hit(c, key) && c.entries[key.value].size == n && !AnyClosed(c.entries[key.value].tokens, closed) {
      var a := if remote.Some? then remote.value else c.connected.value;
      assert key.value == Key(a, local);
      assert ServesAt(c, Key(a, local), closed, n);
    }
  }

  lemma TurnReturnsIff(c: Cache, remote: Option<Address>, local: Source, round: Round, r: Result)
    ensures OneTurn(c, remote, local, round).result == Some(r) <==> Decides(c, remote, local, round, r)
    ensures var turn := OneTurn(c, remote, local, round);
            turn.result == Some(r) && r.Failed? ==> turn.cache == c
  {
    if round.poll.WaitFailed? || round.poll.error {
      return;
    }
    var key, closed := Looked(c, remote, local), round.poll.closed;
    forall n: nat
      ensures Serves(c, remote, local, closed, n) <==>
              Hit(c, key) && c.entries[key.value].size == n && !AnyClosed(c.entries[key.value].tokens, closed)
    {
      ServesIff(c, remote, local, closed, n);
    }
    if Hit(c, key) && !AnyClosed(c.entries[key.value].tokens, closed) {
      HitTurn(c, remote, local, round);
      assert Serves(c, remote, local, closed, c.entries[key.value].size);
    } else {
      AskTurn(c, remote, local, round);
    }
  }

  /** After rounds that did not make it return, Get goes on from where they left the cache. */
  lemma {:induction false} GetGoesOn(c: Cache, remote: Option<Address>, local: Source, rounds: seq<Round>, m: nat)
    requires m <= |rounds| && GetIn(c, remote, local, rounds[..m]).result.None?
    ensures var (got, pre) := (GetIn(c, remote, local, rounds), GetIn(c, remote, local, rounds[..m]));
            var rest := GetIn(pre.cache, remote, local, rounds[m..]);
            got.result == rest.result && got.cache == rest.cache && got.asked == pre.asked + rest.asked
    decreases |rounds|
  {
    if m == 0 {
      assert rounds[0..] == rounds && rounds[..0] == [];
      return;
    }
    var turn := OneTurn(c, remote, local, rounds[0]);
    assert rounds[..m][0] == rounds[0] && rounds[..m][1..] == rounds[1..][..m - 1];
    GetGoesOn(turn.cache, remote, local, rounds[1..], m - 1);
    assert rounds[1..][m - 1..] == rounds[m..];
  }

  /** The first round that decides makes Get return; an error leaves the cache as it was then. */
  lemma GetReturnsAt(c: Cache, remote: Option<Address>, local: Source, rounds: seq<Round>, m: nat, r: Result)
    requires m < |rounds| && GetIn(c, remote, local, rounds[..m]).result.None?
    requires Decides(GetIn(c, remote, local, rounds[..m]).cache, remote, local, rounds[m], r)
    ensures GetIn(c, remote, local, rounds).result == Some(r)
    ensures r.Failed? ==> GetIn(c, remote, local, rounds).cache == GetIn(c, remote, local, rounds[..m]).cache
  {
    GetGoesOn(c, remote, local, rounds, m);
    TurnReturnsIff(GetIn(c, remote, local, rounds[..m]).cache, remote, local, rounds[m], r);
    assert rounds[m..][0] == rounds[m];
  }

  /** ... and whenever Get returns, it is because of such a round. */
  lemma {:induction false} GetReturnedAt(c: Cache, remote: Option<Address>, local: Source, rounds: seq<Round>,
      r: Result)
      returns (m: nat)
    requires GetIn(c, remote, local, rounds).result == Some(r)
    ensures m < |rounds| && GetIn(c, remote, local, rounds[..m]).result.None?
    ensures Decides(GetIn(c, remote, local, rounds[..m]).cache, remote, local, rounds[m], r)
    decreases |rounds|
  {
    var turn := OneTurn(c, remote, local, rounds[0]);
    if turn.result.Some? {
      TurnReturnsIff(c, remote, local, rounds[0], r);
      assert rounds[..0] == [];
      return 0;
    }
    var k := GetReturnedAt(turn.cache, remote, local, rounds[1..], r);
    m := k + 1;
    assert rounds[..m][0] == rounds[0] && rounds[..m][1..] == rounds[1..][..k] && rounds[1..][k] == rounds[m];
  }

  /** A call with an address of its own does not change which peer is connected; one without
      remembers the address that a complete answer named. */
  lemma TurnConnects(c: Cache, remote: Option<Address>, local: Source, round: Round)
    ensures var turn := OneTurn(c, remote, local, round);
            turn.cache.connected ==
            if turn.preflight && remote.None? && ReplyError(remote, round.reply).None? then round.reply.to
            else c.connected
  {
    if round.poll.Signals? && !round.poll.error {
      var key := Looked(c, remote, local);
      if Hit(c, key) && !AnyClosed(c.entries[key.value].tokens, round.poll.closed) {
        HitTurn(c, remote, local, round);
      } else {
        AskTurn(c, remote, local, round);
      }
    }
  }

  /** What was true when a turn returned this size: no error was signalled, and the size comes
      from the latest reply for the looked-up key, none of whose tokens is closed. */
  ghost predicate Fresh(log: seq<Fact>, key: Option<Key>, poll: Poll, size: nat) {
    && poll.Signals? && !poll.error && key.Some?
    && var latest := LatestReply(log, key.value);
       latest.Some? && latest.value.0 == size && !AnyClosed(latest.value.1, poll.closed)
  }

  lemma TurnIsFresh(c: Cache, log: seq<Fact>, remote: Option<Address>, local: Source, round: Round)
    requires Valid(c, log)
    ensures var result := OneTurn(c, remote, local, round).result;
            result.Some? && result.value.Size? ==>
              Fresh(log, Looked(c, remote, local), round.poll, result.value.size)
  {
  }

  lemma GetPrefix(c: Cache, remote: Option<Address>, local: Source, rounds: seq<Round>, m: nat)
    requires m < |rounds| && OneTurn(c, remote, local, rounds[0]).result.None?
    ensures var rest := GetIn(OneTurn(c, remote, local, rounds[0]).cache, remote, local, rounds[1..][..m]);
            && GetIn(c, remote, local, rounds[..m + 1]).cache == rest.cache
            && GetIn(c, remote, local, rounds[..m + 1]).result == rest.result
            && GetIn(c, remote, local, rounds[..m + 1]).log == Facts(c, remote, local, rounds[0]) + rest.log
  {
    assert rounds[..m + 1][0] == rounds[0] && rounds[..m + 1][1..] == rounds[1..][..m];
  }

  lemma TurnThenRest(c: Cache, remote: Option<Address>, local: Source, rounds: seq<Round>, i: nat)
    requires i < |rounds|
    ensures var (turn, facts) := (OneTurn(c, remote, local, rounds[i]), Facts(c, remote, local, rounds[i]));
            var got := GetIn(c, remote, local, rounds[i..]);
            if turn.result.Some? then got.cache == turn.cache && got.result == turn.result && got.log == facts
            else
              var rest := GetIn(turn.cache, remote, local, rounds[i + 1..]);
              got.cache == rest.cache && got.result == rest.result && got.log == facts + rest.log
  {
    assert rounds[i..][1..] == rounds[i + 1..];
  }

  /** What is still to come leads to the goal of a call that began with this record. */
  ghost predicate Leads(c: Cache, log: seq<Fact>, remote: Option<Address>, local: Source, rounds: seq<Round>,
                        goal: Got, start: seq<Fact>)
  {
    var rest := GetIn(c, remote, local, rounds);
    goal.cache == rest.cache && goal.result == rest.result && start + goal.log == log + rest.log
  }

  lemma LeadsOn(c: Cache, log: seq<Fact>, remote: Option<Address>, local: Source, rounds: seq<Round>, i: nat,
                goal: Got, start: seq<Fact>)
    requires i < |rounds| && Leads(c, log, remote, local, rounds[i..], goal, start)
    ensures var (turn, facts) := (OneTurn(c, remote, local, rounds[i]), Facts(c, remote, local, rounds[i]));
            if turn.result.Some? then
              goal.cache == turn.cache && goal.result == turn.result && start + goal.log == log + facts
            else Leads(turn.cache, log + facts, remote, local, rounds[i + 1..], goal, start)
  {
    TurnThenRest(c, remote, local, rounds, i);
    var turn, facts := OneTurn(c, remote, local, rounds[i]), Facts(c, remote, local, rounds[i]);
    FactsAssoc(log, facts, GetIn(turn.cache, remote, local, rounds[i + 1..]).log);
  }

  lemma LeadsNowhere(c: Cache, log: seq<Fact>, remote: Option<Address>, local: Source, rounds: seq<Round>,
                     goal: Got, start: seq<Fact>)
    requires rounds == [] && Leads(c, log, remote, local, rounds, goal, start)
    ensures goal.cache == c && goal.result == None && start + goal.log == log
  {
    assert log + [] == log;
  }

  lemma FactsAssoc(a: seq<Fact>, b: seq<Fact>, c: seq<Fact>)
    ensures (a + b) + c == a + (b + c)
  {
  }

  /** The call returned in the n-th turn, and the size that it returned was fresh then. */
  ghost predicate FreshAt(c: Cache, log: seq<Fact>, call: Call, n: nat)
    requires n < |call.rounds| && GetOf(c, call).result.Some? && GetOf(c, call).result.value.Size?
  {
    var before := GetIn(c, call.remote, call.local, call.rounds[..n]);
    && before.result.None?
    && Fresh(log + before.log, Looked(before.cache, call.remote, call.local), call.rounds[n].poll,
             GetOf(c, call).result.value.size)
  }

  lemma FreshNow(c: Cache, log: seq<Fact>, call: Call)
    requires Valid(c, log) && call.rounds != []
    requires var result := OneTurn(c, call.remote, call.local, call.rounds[0]).result;
             result.Some? && result.value.Size?
    ensures FreshAt(c, log, call, 0)
  {
    TurnIsFresh(c, log, call.remote, call.local, call.rounds[0]);
    assert call.rounds[..0] == [] && log + [] == log;
  }

  lemma FreshLater(c: Cache, log: seq<Fact>, call: Call, m: nat)
    requires m + 1 < |call.rounds| && OneTurn(c, call.remote, call.local, call.rounds[0]).result.None?
    requires var turn := OneTurn(c, call.remote, call.local, call.rounds[0]);
             var rest := call.(rounds := call.rounds[1..]);
             && GetOf(turn.cache, rest).result.Some? && GetOf(turn.cache, rest).result.value.Size?
             && FreshAt(turn.cache, log + Facts(c, call.remote, call.local, call.rounds[0]), rest, m)
    ensures FreshAt(c, log, call, m + 1)
  {
    var turn := OneTurn(c, call.remote, call.local, call.rounds[0]);
    var facts := Facts(c, call.remote, call.local, call.rounds[0]);
    GetPrefix(c, call.remote, call.local, call.rounds, m);
    FactsAssoc(log, facts, GetIn(turn.cache, call.remote, call.local, call.rounds[1..][..m]).log);
  }

  lemma {:induction false} GetIsFresh(c: Cache, log: seq<Fact>, call: Call) returns (n: nat)
    requires Valid(c, log) && forall i :: 0 <= i < |call.rounds| ==> Plausible(call.rounds[i])
    requires GetOf(c, call).result.Some? && GetOf(c, call).result.value.Size?
    ensures n < |call.rounds| && FreshAt(c, log, call, n)
    decreases |call.rounds|
  {
    var turn := OneTurn(c, call.remote, call.local, call.rounds[0]);
    if turn.result.Some? {
      FreshNow(c, log, call);
      return 0;
    }
    TurnKeeps(c, log, call.remote, call.local, call.rounds[0]);
    var facts := Facts(c, call.remote, call.local, call.rounds[0]);
    var m := GetIsFresh(turn.cache, log + facts, call.(rounds := call.rounds[1..]));
    FreshLater(c, log, call, m);
    return m + 1;
  }

  /** After a preflight succeeded, the next turn finds its reply, also for a connected socket. */
  lemma PreflightThenHit(c: Cache, remote: Option<Address>, local: Source, asked: Round, next: Round)
    requires OneTurn(c, remote, local, asked).preflight && OneTurn(c, remote, local, asked).result.None?
    requires next.poll.Signals? && !next.poll.error && !AnyClosed(asked.reply.tokens.value, next.poll.closed)
    ensures var turn := OneTurn(OneTurn(c, remote, local, asked).cache, remote, local, next);
            turn.result == Some(Size(asked.reply.size.value)) && !turn.preflight
  {
    var Answer(to, size, tokens) := asked.reply;
    var addr := if remote.Some? then remote else to;
    var k := Key(addr.value, local);
    StoredEntry(c, k, size.value, tokens.value);
    var c' := OneTurn(c, remote, local, asked).cache;
    assert c'.entries == Store(c, k, size.value, tokens.value).entries;
    assert Looked(c', remote, local) == Some(k) && Hit(c', Some(k));
  }

  lemma StoredEntry(c: Cache, k: Key, size: nat, tokens: seq<Token>)
    ensures var c' := Store(c, k, size, tokens);
            k in c'.entries && c'.entries[k].size == size && c'.entries[k].tokens == tokens
  {
  }

  /** No error is signalled and no token of these rounds' replies is closed in them. */
  ghost predicate Quiet(rounds: seq<Round>) {
    && (forall i :: 0 <= i < |rounds| ==> rounds[i].poll.Signals? && !rounds[i].poll.error)
    && (forall i, j :: 0 <= i < j < |rounds| && rounds[i].reply.Answer? && rounds[i].reply.tokens.Some? ==>
          !AnyClosed(rounds[i].reply.tokens.value, rounds[j].poll.closed))
  }

  /** In quiet surroundings Get returns within two turns and asks the server at most once. */
  lemma QuietAsksOnce(c: Cache, remote: Option<Address>, local: Source, rounds: seq<Round>)
    requires Quiet(rounds)
    ensures GetIn(c, remote, local, rounds).asked <= 1
    ensures |rounds| >= 2 ==> GetIn(c, remote, local, rounds).result.Some?
  {
    if rounds == [] || OneTurn(c, remote, local, rounds[0]).result.Some? {
      return;
    }
    var c1, rest := OneTurn(c, remote, local, rounds[0]).cache, rounds[1..];
    assert OneTurn(c, remote, local, rounds[0]).preflight;
    if rest == [] {
      return;
    }
    PreflightThenHit(c, remote, local, rounds[0], rest[0]);
    HitEnds(c1, remote, local, rest);
  }

  lemma HitEnds(c: Cache, remote: Option<Address>, local: Source, rounds: seq<Round>)
    requires rounds != [] && OneTurn(c, remote, local, rounds[0]).result.Some?
              && !OneTurn(c, remote, local, rounds[0]).preflight
    ensures GetIn(c, remote, local, rounds).result.Some? && GetIn(c, remote, local, rounds).asked == 0
  {
  }

  // -------------------------------------------------------------------- all runs

  /** The cache and the record after some calls. */
  function After(c: Cache, log: seq<Fact>, calls: seq<Call>): (Cache, seq<Fact>)
    decreases |calls|
  {
    if calls == [] then (c, log)
    else
      var got := GetOf(c, calls[0]);
      After(got.cache, log + got.log, calls[1..])
  }

  ghost predicate AllPlausible(calls: seq<Call>) {
    forall i, j :: 0 <= i < |calls| && 0 <= j < |calls[i].rounds| ==> Plausible(calls[i].rounds[j])
  }

  lemma {:induction false} GetKeeps(c: Cache, log: seq<Fact>, remote: Option<Address>, local: Source,
      rounds: seq<Round>)
    requires Valid(c, log) && forall i :: 0 <= i < |rounds| ==> Plausible(rounds[i])
    ensures Valid(GetIn(c, remote, local, rounds).cache, log + GetIn(c, remote, local, rounds).log)
    decreases |rounds|
  {
    if rounds == [] {
      assert log + [] == log;
      return;
    }
    var turn, facts := OneTurn(c, remote, local, rounds[0]), Facts(c, remote, local, rounds[0]);
    TurnKeeps(c, log, remote, local, rounds[0]);
    var got := GetIn(c, remote, local, rounds);
    if turn.result.Some? {
      return;
    }
    GetKeeps(turn.cache, log + facts, remote, local, rounds[1..]);
    GotRest(got, GetIn(turn.cache, remote, local, rounds[1..]), log, facts);
  }

  lemma GotRest(got: Got, rest: Got, log: seq<Fact>, facts: seq<Fact>)
    requires Valid(rest.cache, (log + facts) + rest.log) && got.cache == rest.cache && got.log == facts + rest.log
    ensures Valid(got.cache, log + got.log)
  {
    assert log + got.log == (log + facts) + rest.log;
  }

  lemma {:induction false} RunKeeps(c: Cache, log: seq<Fact>, calls: seq<Call>)
    requires Valid(c, log) && AllPlausible(calls)
    ensures Valid(After(c, log, calls).0, After(c, log, calls).1)
    decreases |calls|
  {
    if calls != [] {
      GetKeeps(c, log, calls[0].remote, calls[0].local, calls[0].rounds);
      var got := GetOf(c, calls[0]);
      RunKeeps(got.cache, log + got.log, calls[1..]);
    }
  }

  /** After any calls, however they were answered, the cache is exactly the n most recently
      used keys in that order (n at most 512), each with its own list node and latest reply. */
  lemma CacheIsMostRecentlyUsed(calls: seq<Call>)
    requires AllPlausible(calls)
    ensures var (c, log) := After(EMPTY, [], calls); Valid(c, log)
  {
    RunKeeps(EMPTY, [], calls);
  }

  /** After any calls, every size that the next one returns is that of the latest reply of the
      server for the key it looked up, in any of these calls or its own, with no token of that
      reply closed and no error signalled in the turn that returned it. */
  lemma SizeIsFresh(calls: seq<Call>, call: Call) returns (n: nat)
    requires AllPlausible(calls) && forall i :: 0 <= i < |call.rounds| ==> Plausible(call.rounds[i])
    requires var c := After(EMPTY, [], calls).0;
             GetOf(c, call).result.Some? && GetOf(c, call).result.value.Size?
    ensures var (c, log) := After(EMPTY, [], calls); n < |call.rounds| && FreshAt(c, log, call, n)
  {
    RunKeeps(EMPTY, [], calls);
    var (c, log) := After(EMPTY, [], calls);
    n := GetIsFresh(c, log, call);
  }

  // ------------------------------------------------------ a refresh that costs an entry

  /** A call for address i: nothing is closed, the server answers with token i, and Get returns. */
  function FillCall(i: nat): Call {
    var quiet := Signals(false, {});
    Call(Some(i), None, [Round(quiet, None, Answer(None, Some(0), Some([i]))), Round(quiet, None, CallFailed(0))])
  }

  function FillCalls(n: nat): seq<Call> {
    if n == 0 then [] else FillCalls(n - 1) + [FillCall(n - 1)]
  }

  /** The newest key again, whose token is closed by now; the server answers with a new one. */
  function RefreshCall(i: nat): Call {
    Call(Some(i), None, [Round(Signals(false, {i}), None, Answer(None, Some(0), Some([i + 1]))),
                         Round(Signals(false, {i}), None, CallFailed(0))])
  }

  lemma AnswerStores(c: Cache, i: nat, token: Token, closed: set<Token>)
    requires Hit(c, Some(Key(i, None))) ==> AnyClosed(c.entries[Key(i, None)].tokens, closed)
    requires token !in closed
    ensures var call := Call(Some(i), None, [Round(Signals(false, closed), None, Answer(None, Some(0), Some([token]))),
                                             Round(Signals(false, closed), None, CallFailed(0))]);
            && GetOf(c, call).cache == Store(c, Key(i, None), 0, [token])
            && GetOf(c, call).result == Some(Size(0))
  {
    var k := Key(i, None);
    var asked := Round(Signals(false, closed), None, Answer(None, Some(0), Some([token])));
    var again := Round(Signals(false, closed), None, CallFailed(0));
    var c1 := Store(c, k, 0, [token]);
    assert OneTurn(c, Some(i), None, asked) == Turn(c1, None, true);
    StoredEntry(c, k, 0, [token]);
    StoredFront(c, k, 0, [token]);
    assert OneTurn(c1, Some(i), None, again) == Turn(c1, Some(Size(0)), false);
    TurnThenRest(c, Some(i), None, [asked, again], 0);
    TurnThenRest(c1, Some(i), None, [asked, again], 1);
    assert [asked, again][0..] == [asked, again];
  }

  /** A stored key is at the front, so that the hit after it changes nothing. */
  lemma StoredFront(c: Cache, k: Key, size: nat, tokens: seq<Token>)
    ensures var c' := Store(c, k, size, tokens);
            k in c'.entries && MoveToFront(c', k) == c'
  {
  }

  lemma {:induction false} AfterSnoc(c: Cache, log: seq<Fact>, calls: seq<Call>, call: Call)
    ensures After(c, log, calls + [call]).0 == GetOf(After(c, log, calls).0, call).cache
    decreases |calls|
  {
    if calls == [] {
      assert [call][1..] == [];
      assert calls + [call] == [call];
    } else {
      assert (calls + [call])[0] == calls[0] && (calls + [call])[1..] == calls[1..] + [call];
      var got := GetOf(c, calls[0]);
      AfterSnoc(got.cache, log + got.log, calls[1..], call);
    }
  }

  ghost predicate FilledTo(c: Cache, n: nat) {
    && Placed(c) && |c.entries| == n
    && (forall k :: k in c.entries ==> k.remote < n)
    && (n > 0 ==> c.lru[0].key == Key(n - 1, None) && c.entries[Key(n - 1, None)].tokens == [n - 1])
  }

  lemma StoreFills(c: Cache, n: nat)
    requires FilledTo(c, n) && n < MAX_ENTRIES
    ensures FilledTo(Store(c, Key(n, None), 0, [n]), n + 1)
  {
    var k := Key(n, None);
    StorePlaced(c, k, 0, [n]);
    StoredEntry(c, k, 0, [n]);
    StoreKeys(c, k, 0, [n]);
    var c' := Store(c, k, 0, [n]);
    assert Keys(c'.lru)[0] == c'.lru[0].key;
    assert c'.entries.Keys == c.entries.Keys + {k};
  }

  lemma FillStep(c: Cache, n: nat)
    requires FilledTo(c, n) && n < MAX_ENTRIES
    ensures FilledTo(GetOf(c, FillCall(n)).cache, n + 1)
  {
    AnswerStores(c, n, n, {});
    StoreFills(c, n);
  }

  lemma {:induction false} FillsPlausible(n: nat)
    ensures AllPlausible(FillCalls(n))
  {
    if n > 0 { FillsPlausible(n - 1); }
  }

  lemma {:induction false} FillsUp(n: nat)
    requires n <= MAX_ENTRIES
    ensures FilledTo(After(EMPTY, [], FillCalls(n)).0, n)
  {
    if n == 0 {
      return;
    }
    FillsUp(n - 1);
    var c := After(EMPTY, [], FillCalls(n - 1)).0;
    FillStep(c, n - 1);
    AfterSnoc(EMPTY, [], FillCalls(n - 1), FillCall(n - 1));
    assert After(EMPTY, [], FillCalls(n)).0 == GetOf(c, FillCall(n - 1)).cache;
  }

  /** 512 calls fill the cache; one more, for a key that it holds, leaves it with 511 entries. */
  lemma RefreshShrinksFullCache() returns (calls: seq<Call>)
    ensures AllPlausible(calls) && AllPlausible(calls + [RefreshCall(MAX_ENTRIES - 1)])
    ensures |After(EMPTY, [], calls).0.entries| == MAX_ENTRIES
    ensures Key(MAX_ENTRIES - 1, None) in After(EMPTY, [], calls).0.entries
    ensures |After(EMPTY, [], calls + [RefreshCall(MAX_ENTRIES - 1)]).0.entries| == MAX_ENTRIES - 1
  {
    calls := FillThenRefresh(MAX_ENTRIES);
  }

  lemma FillThenRefresh(n: nat) returns (calls: seq<Call>)
    requires n == MAX_ENTRIES
    ensures AllPlausible(calls) && AllPlausible(calls + [RefreshCall(n - 1)])
    ensures |After(EMPTY, [], calls).0.entries| == n && Key(n - 1, None) in After(EMPTY, [], calls).0.entries
    ensures |After(EMPTY, [], calls + [RefreshCall(n - 1)]).0.entries| == n - 1
  {
    calls := FillCalls(n);
    FillsPlausible(n);
    FillsUp(n);
    RefreshShrinks(After(EMPTY, [], calls).0);
    AfterSnoc(EMPTY, [], calls, RefreshCall(n - 1));
  }

  lemma RefreshShrinks(c: Cache)
    requires FilledTo(c, MAX_ENTRIES)
    ensures Key(MAX_ENTRIES - 1, None) in c.entries
    ensures |GetOf(c, RefreshCall(MAX_ENTRIES - 1)).cache.entries| == MAX_ENTRIES - 1
  {
    var i := MAX_ENTRIES - 1;
    var k := Key(i, None);
    assert c.lru[0] in c.lru && k in c.entries;
    assert c.entries[k].tokens[0] in {i};
    AnswerStores(c, i, i + 1, {i});
    assert Keys(c.lru)[0] == k && Keys(c.lru)[i] == c.lru[i].key;
    StoreSize(c, k, 0, [i + 1]);
  }

  // ------------------------------------------------------------------- the class

  class Routes {
    var entries: map<Key, Entry>
    var lru: seq<Node>
    var nextId: NodeId
    var connected: Option<Address>
    ghost var log: seq<Fact>

    ghost function View(): Cache
      reads this
    {
      Cache(entries, lru, nextId, connected)
    }

    constructor ()
      ensures View() == EMPTY && log == [] && Valid(View(), log)
    {
      entries, lru, nextId, connected, log := map[], [], 0, None, [];
    }

    method LruAddToFront(k: Key)
      requires k in entries
      modifies this
      ensures View() == AddToFront(old(View()), k) && log == old(log)
    {
      lru := [Node(nextId, k)] + lru;
      entries := entries[k := entries[k].(node := nextId)];
      nextId := nextId + 1;
    }

    /** list::erase through the iterator that the entry holds. */
    method LruErase(id: NodeId)
      modifies this
      ensures View() == old(View()).(lru := Erase(old(lru), id)) && log == old(log)
    {
      lru := EraseById(lru, id);
    }

    static method EraseById(list: seq<Node>, id: NodeId) returns (rest: seq<Node>)
      ensures rest == Erase(list, id)
    {
      var i := 0;
      rest := list;
      while i < |list| && list[i].id != id
        invariant 0 <= i <= |list| && list[..i] + Erase(list[i..], id) == Erase(list, id)
      {
        assert list[..i + 1] == list[..i] + [list[i]] && list[i..][1..] == list[i + 1..];
        i := i + 1;
      }
      if i < |list| {
        assert list[i..][1..] == list[i + 1..];
        rest := list[..i] + list[i + 1..];
      } else {
        assert list[i..] == [] && list[..i] == list;
      }
    }

    method LruMoveToFront(k: Key)
      requires Placed(View()) && k in entries
      modifies this
      ensures View() == MoveToFront(old(View()), k) && log == old(log)
    {
      ghost var at := IndexOf(View(), k);
      if entries[k].node == lru[0].id {
        return;
      }
      LruErase(entries[k].node);
      LruAddToFront(k);
    }

    /** A full cache gives up the key at the back. */
    method MakeRoom()
      requires Valid(View(), log)
      modifies this
      ensures Valid(View(), log) && View() == Evict(old(View())) && log == old(log)
    {
      EvictKeeps(View(), log);
      if |entries| < MAX_ENTRIES {
        return;
      }
      EvictedKeys(View());
      PopBack();
    }

    method PopBack()
      requires |entries| == MAX_ENTRIES && lru != [] && lru[|lru| - 1].key in entries
      modifies this
      ensures View() == Evict(old(View())) && log == old(log)
    {
      var back := lru[|lru| - 1].key;
      entries := entries - {back};
      lru := lru[..|lru| - 1];
    }

    method SetAndMoveToFront(k: Key, size: nat, tokens: seq<Token>)
      requires Placed(View())
      modifies this
      ensures var c1 := old(View());
              var c2 := SetEntry(c1, k, size, tokens);
              View() == (if k in c1.entries then MoveToFront(c2, k) else AddToFront(c2, k)) && log == old(log)
    {
      SetEntryPlaced(View(), k, size, tokens);
      if k !in entries {
        entries := entries[k := Entry(tokens, size, 0)];
        LruAddToFront(k);
      } else {
        entries := entries[k := Entry(tokens, size, entries[k].node)];
        LruMoveToFront(k);
      }
    }

    method StoreReply(k: Key, size: nat, tokens: seq<Token>)
      requires Valid(View(), log) && |tokens| < WAIT_MANY_MAX_ITEMS
      modifies this
      ensures Valid(View(), log) && View() == Store(old(View()), k, size, tokens)
      ensures log == old(log) + [Replied(k, size, tokens)]
    {
      StoreKeeps(View(), log, k, size, tokens);
      MakeRoom();
      SetAndMoveToFront(k, size, tokens);
      log := log + [Replied(k, size, tokens)];
      assert View() == Store(old(View()), k, size, tokens);
    }

    /** A hit: the entry becomes the most recently used one. */
    method UseEntry(k: Key) returns (size: nat)
      requires Valid(View(), log) && k in entries
      modifies this
      ensures Valid(View(), log) && View() == MoveToFront(old(View()), k) && size == old(entries[k].size)
      ensures log == old(log) + [Used(k)]
    {
      TouchKeeps(View(), log, k);
      size := entries[k].size;
      LruMoveToFront(k);
      log := log + [Used(k)];
    }

    method PollTokens(tokens: seq<Token>, closed: set<Token>) returns (any: bool)
      ensures any <==> AnyClosed(tokens, closed)
    {
      any := false;
      for i := 0 to |tokens|
        invariant any <==> exists j :: 0 <= j < i && tokens[j] in closed
      {
        if tokens[i] in closed {
          any := true;
        }
      }
    }

    method ConnectTo(addr: Option<Address>)
      requires Valid(View(), log)
      modifies this
      ensures Valid(View(), log) && View() == old(View()).(connected := addr) && log == old(log)
    {
      connected := addr;
    }

    /** The part of the loop after the poll, when the server has to be asked. */
    method Ask(remote: Option<Address>, local: Source, reply: Reply) returns (result: Option<Result>)
      requires Valid(View(), log) && Plausible(Round(Signals(false, {}), None, reply))
      modifies this
      ensures Valid(View(), log) && log == old(log) + ReplyFact(remote, local, reply)
      ensures View() == Preflight(old(View()), remote, local, reply).cache
      ensures result == Preflight(old(View()), remote, local, reply).result
    {
      match reply
      case CallFailed(status) => return Some(Failed(Status(status)));
      case Refused(code) => return Some(Failed(Code(code)));
      case Answer(to, size, tokens) =>
        var addr := if remote.Some? then remote else to;
        if addr.None? {
          return Some(Failed(EIO));
        }
        if size.None? || tokens.None? {
          return Some(Failed(EIO));
        }
        StoreReply(Key(addr.value, local), size.value, tokens.value);
        if remote.None? {
          ConnectTo(addr);
        }
        return None;
    }

    /** No result if Get has not returned by the last of the rounds. */
    method Get(remote: Option<Address>, local: Source, rounds: seq<Round>) returns (result: Option<Result>)
      requires Valid(View(), log) && forall i :: 0 <= i < |rounds| ==> Plausible(rounds[i])
      modifies this
      ensures Valid(View(), log) && log == old(log) + GetIn(old(View()), remote, local, rounds).log
      ensures View() == GetIn(old(View()), remote, local, rounds).cache
      ensures result == GetIn(old(View()), remote, local, rounds).result
    {
      result := TakeTurns(remote, local, rounds, GetIn(View(), remote, local, rounds), log);
    }

    /** The loop, towards the result of the call. */
    method TakeTurns(remote: Option<Address>, local: Source, rounds: seq<Round>, ghost goal: Got,
        ghost start: seq<Fact>)
      returns (result: Option<Result>)
      requires Valid(View(), log) && forall i :: 0 <= i < |rounds| ==> Plausible(rounds[i])
      requires Leads(View(), log, remote, local, rounds, goal, start)
      modifies this
      ensures Valid(View(), log) && goal.cache == View() && goal.result == result && log == start + goal.log
    {
      var i := 0;
      assert rounds[0..] == rounds;
      while i < |rounds|
        invariant 0 <= i <= |rounds| && Valid(View(), log)
        invariant Leads(View(), log, remote, local, rounds[i..], goal, start)
      {
        result := NextTurn(remote, local, rounds, i, goal, start);
        if result.Some? {
          return;
        }
        i := i + 1;
      }
      LeadsNowhere(View(), log, remote, local, rounds[i..], goal, start);
      return None;
    }

    /** One turn of the loop, towards the result of the call. */
    method NextTurn(remote: Option<Address>, local: Source, rounds: seq<Round>, i: nat,
                    ghost goal: Got, ghost start: seq<Fact>)
      returns (result: Option<Result>)
      requires Valid(View(), log) && i < |rounds| && Plausible(rounds[i])
      requires Leads(View(), log, remote, local, rounds[i..], goal, start)
      modifies this
      ensures Valid(View(), log)
      ensures if result.Some? then goal.cache == View() && goal.result == result && log == start + goal.log
              else Leads(View(), log, remote, local, rounds[i + 1..], goal, start)
    {
      LeadsOn(View(), log, remote, local, rounds, i, goal, start);
      result := TakeTurn(remote, local, rounds[i]);
    }

    method TakeTurn(remote: Option<Address>, local: Source, round: Round) returns (result: Option<Result>)
      requires Valid(View(), log) && Plausible(round)
      modifies this
      ensures Valid(View(), log) && log == old(log) + Facts(old(View()), remote, local, round)
      ensures View() == OneTurn(old(View()), remote, local, round).cache
      ensures result == OneTurn(old(View()), remote, local, round).result
    {
      if round.poll.WaitFailed? {
        IdleTurn(View(), remote, local, round);
        return Some(Failed(Status(round.poll.status)));
      }
      if round.poll.error {
        IdleTurn(View(), remote, local, round);
        return if round.pendingError.Some? then Some(Failed(round.pendingError.value)) else None;
      }
      var key := LookUp(remote, local);
      if key.Some? {
        var expired := PollTokens(entries[key.value].tokens, round.poll.closed);
        if !expired {
          HitTurn(View(), remote, local, round);
          var size := UseEntry(key.value);
          return Some(Size(size));
        }
      }
      AskTurn(View(), remote, local, round);
      result := Ask(remote, local, round.reply);
    }

    /** The key to look up, if the cache has an entry for it. */
    method LookUp(remote: Option<Address>, local: Source) returns (key: Option<Key>)
      ensures key == if Hit(View(), Looked(View(), remote, local)) then Looked(View(), remote, local) else None
    {
      var lookup := if remote.Some? then remote else connected;
      if lookup.Some? && Key(lookup.value, local) in entries {
        return Some(Key(lookup.value, local));
      }
      return None;
    }
  }
}
