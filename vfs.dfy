/**
 * The in-memory file-system tree of the desktop terminal
 * (Desktop/terminal.js): nested `{type, contents|content}` objects rooted at
 * `fileSystem['/']`. A directory's `contents` object is a sequence of named
 * entries kept in the order `Object.keys` lists them: the names that are
 * array indices first, in ascending numeric order, then the other names in
 * the order they were added.
 */
module Vfs {
  import opened Wrappers
  import opened Text
  import opened Paths

  datatype Node = File(content: string) | Dir(entries: seq<Entry>)
  datatype Entry = Entry(name: string, node: Node)

  /** `Object.keys(contents)` */
  function Names(es: seq<Entry>): (ns: seq<string>)
    ensures |ns| == |es|
    ensures forall i :: 0 <= i < |es| ==> ns[i] == es[i].name
  {
    if es == [] then [] else [es[0].name] + Names(es[1..])
  }

  /** `contents[name]`: the node stored under `name`, if any. */
  function Lookup(es: seq<Entry>, name: string): (r: Option<Node>)
    ensures r.Some? <==> name in Names(es)
  {
    if es == [] then None
    else if es[0].name == name then Some(es[0].node)
    else Lookup(es[1..], name)
  }

  /** With unique names, the entry at index `i` is what a lookup of its name finds. */
  lemma {:induction false} LookupAt(es: seq<Entry>, i: nat)
    requires UniqueNames(es) && i < |es|
    ensures Lookup(es, es[i].name) == Some(es[i].node)
  {
    if i > 0 {
      LookupAt(es[1..], i - 1);
    }
  }

  /**
   * A property key that is an array index: the canonical decimal form of a
   * number below 2^32 - 1 (section 6.1.7 of ECMA-262).
   */
  predicate IsIndex(name: string)
  {
    Canonical(name) && DigitsValue(name) < 0xFFFF_FFFF
  }

  /** A new key `name` is listed before the existing key `other`. */
  predicate Precedes(name: string, other: string)
  {
    IsIndex(name) && (!IsIndex(other) || DigitsValue(name) < DigitsValue(other))
  }

  /**
   * The keys are in `Object.keys` order (section 10.1.11.1 of ECMA-262,
   * OrdinaryOwnPropertyKeys): every array index comes before every other
   * name, and the indices ascend.
   */
  predicate KeyOrdered(es: seq<Entry>)
  {
    forall i, j {:trigger IsIndex(es[j].name), es[i]} :: 0 <= i < j < |es| && IsIndex(es[j].name) ==>
      IsIndex(es[i].name) && DigitsValue(es[i].name) < DigitsValue(es[j].name)
  }

  /** A name that does not start with a digit is not an array index. */
  lemma NonDigitNotIndex(name: string)
    requires name != "" && !('0' <= name[0] <= '9')
    ensures !IsIndex(name)
  {
  }

  /** Keys none of which is an array index are in `Object.keys` order, whatever their order. */
  lemma NoIndexKeyOrdered(es: seq<Entry>)
    requires forall i :: 0 <= i < |es| ==> !IsIndex(es[i].name)
    ensures KeyOrdered(es)
  {
  }

  /** Where a new key goes: before the first key it precedes, or last. */
  function InsertionPoint(es: seq<Entry>, name: string): (k: nat)
    ensures k <= |es|
  {
    if es == [] then 0
    else if Precedes(name, es[0].name) then 0
    else 1 + InsertionPoint(es[1..], name)
  }

  /** The keys before the insertion point are not preceded by the new key; the one at it is. */
  lemma {:induction false} InsertionPointBounds(es: seq<Entry>, name: string)
    ensures var k := InsertionPoint(es, name);
            (forall i :: 0 <= i < k ==> !Precedes(name, es[i].name)) &&
            (k < |es| ==> Precedes(name, es[k].name))
  {
    if es != [] && !Precedes(name, es[0].name) {
      InsertionPointBounds(es[1..], name);
      var k := InsertionPoint(es[1..], name);
      forall i | 1 <= i < k + 1 ensures !Precedes(name, es[i].name) {
        assert es[i] == es[1..][i - 1];
      }
      if k + 1 < |es| {
        assert es[k + 1] == es[1..][k];
      }
    }
  }

  /** `es` with `e` inserted at `k`. */
  function Inserted(es: seq<Entry>, k: nat, e: Entry): (r: seq<Entry>)
    requires k <= |es|
    ensures |r| == |es| + 1 && r[k] == e
    ensures forall i :: 0 <= i < k ==> r[i] == es[i]
    ensures forall i :: k < i < |r| ==> r[i] == es[i - 1]
  {
    es[..k] + [e] + es[k..]
  }

  /** The keys of an insertion are the old keys with the new one at its place. */
  lemma InsertedNames(es: seq<Entry>, k: nat, e: Entry, r: seq<Entry>)
    requires k <= |es| && |r| == |es| + 1 && r[k] == e
    requires forall i :: 0 <= i < k ==> r[i] == es[i]
    requires forall i :: k < i < |r| ==> r[i] == es[i - 1]
    ensures Names(r) == Names(es)[..k] + [e.name] + Names(es)[k..]
  {
    var ns := Names(es);
    var ins := ns[..k] + [e.name] + ns[k..];
    assert |Names(r)| == |ins|;
    forall i | 0 <= i < |ins| ensures Names(r)[i] == ins[i] {
      if i < k {
        assert ins[i] == ns[i] && r[i] == es[i];
      } else if i == k {
        assert ins[i] == e.name;
      } else {
        assert ins[i] == ns[i - 1] && r[i] == es[i - 1];
      }
    }
  }

  /** Inserting a new key keeps the keys distinct. */
  lemma InsertedUnique(es: seq<Entry>, k: nat, e: Entry)
    requires k <= |es| && UniqueNames(es) && e.name !in Names(es)
    ensures UniqueNames(Inserted(es, k, e))
  {
    var r := Inserted(es, k, e);
    forall i, j | 0 <= i < j < |r| ensures r[i].name != r[j].name {
      var a := if i < k then i else if i == k then -1 else i - 1;
      var b := if j < k then j else if j == k then -1 else j - 1;
      if a >= 0 { assert r[i] == es[a] && Names(es)[a] == es[a].name; }
      if b >= 0 { assert r[j] == es[b] && Names(es)[b] == es[b].name; }
    }
  }

  /** Inserting a new key at its insertion point keeps `Object.keys` order. */
  lemma InsertedKeyOrdered(es: seq<Entry>, e: Entry, k: nat, r: seq<Entry>)
    requires KeyOrdered(es) && e.name !in Names(es) && k == InsertionPoint(es, e.name)
    requires |r| == |es| + 1 && r[k] == e
    requires forall i :: 0 <= i < k ==> r[i] == es[i]
    requires forall i :: k < i < |r| ==> r[i] == es[i - 1]
    ensures KeyOrdered(r)
  {
    InsertionPointBounds(es, e.name);
    forall i, j | 0 <= i < j < |r| && IsIndex(r[j].name)
      ensures IsIndex(r[i].name) && DigitsValue(r[i].name) < DigitsValue(r[j].name)
    {
      assert r[i] == At(es, k, e, i) && r[j] == At(es, k, e, j);
      assert i < k ==> !Precedes(e.name, es[i].name);
      PairOrdered(es, e, k, i, j);
    }
  }

  /** The entry at `i` once `e` is inserted at `k`. */
  function At(es: seq<Entry>, k: nat, e: Entry, i: nat): Entry
    requires k <= |es| && i <= |es|
  {
    if i < k then es[i] else if i == k then e else es[i - 1]
  }

  /** Two positions of the insertion are in `Object.keys` order. */
  lemma PairOrdered(es: seq<Entry>, e: Entry, k: nat, i: nat, j: nat)
    requires KeyOrdered(es) && e.name !in Names(es) && k <= |es| && i < j <= |es|
    requires i < k ==> !Precedes(e.name, es[i].name)
    requires k < |es| ==> Precedes(e.name, es[k].name)
    requires IsIndex(At(es, k, e, j).name)
    ensures IsIndex(At(es, k, e, i).name) && DigitsValue(At(es, k, e, i).name) < DigitsValue(At(es, k, e, j).name)
  {
    if j == k {
      PairNewLast(es, e, k, i, j);
    } else if i == k {
      assert At(es, k, e, j) == es[j - 1];
      PairNewFirst(es, e, k, i, j);
    } else {
      PairOld(es, e, k, i, j);
    }
  }

  /** The new key is the later of the two. */
  lemma PairNewLast(es: seq<Entry>, e: Entry, k: nat, i: nat, j: nat)
    requires e.name !in Names(es) && i < j == k <= |es|
    requires !Precedes(e.name, es[i].name) && IsIndex(e.name)
    ensures IsIndex(At(es, k, e, i).name) && DigitsValue(At(es, k, e, i).name) < DigitsValue(At(es, k, e, j).name)
  {
    assert At(es, k, e, i) == es[i] && At(es, k, e, j) == e;
    BelowNewEntry(es, e.name, i);
  }

  /** The new key is the earlier of the two. */
  lemma PairNewFirst(es: seq<Entry>, e: Entry, k: nat, i: nat, j: nat)
    requires KeyOrdered(es) && i == k < j <= |es|
    requires Precedes(e.name, es[k].name) && IsIndex(es[j - 1].name)
    ensures IsIndex(At(es, k, e, i).name) && DigitsValue(At(es, k, e, i).name) < DigitsValue(At(es, k, e, j).name)
  {
    AboveNewKey(es, e.name, k, j - 1);
    assert At(es, k, e, i) == e && At(es, k, e, j) == es[j - 1];
  }

  /** Neither is the new key. */
  lemma PairOld(es: seq<Entry>, e: Entry, k: nat, i: nat, j: nat)
    requires KeyOrdered(es) && k <= |es| && i < j <= |es| && i != k && j != k
    requires IsIndex(At(es, k, e, j).name)
    ensures IsIndex(At(es, k, e, i).name) && DigitsValue(At(es, k, e, i).name) < DigitsValue(At(es, k, e, j).name)
  {
    var a := if i < k then i else i - 1;
    var b := if j < k then j else j - 1;
    assert At(es, k, e, i) == es[a] && At(es, k, e, j) == es[b] && a < b;
    OrderedPair(es, a, b);
  }

  /** Two existing keys keep their order. */
  lemma OrderedPair(es: seq<Entry>, a: nat, b: nat)
    requires KeyOrdered(es) && a < b < |es| && IsIndex(es[b].name)
    ensures IsIndex(es[a].name) && DigitsValue(es[a].name) < DigitsValue(es[b].name)
  {
  }

  /** An existing entry the new index does not precede has a smaller index. */
  lemma BelowNewEntry(es: seq<Entry>, name: string, i: nat)
    requires IsIndex(name) && i < |es| && !Precedes(name, es[i].name) && name !in Names(es)
    ensures IsIndex(es[i].name) && DigitsValue(es[i].name) < DigitsValue(name)
  {
    assert Names(es)[i] == es[i].name;
    BelowNewKey(es[i].name, name, es);
  }

  /** An existing key the new index does not precede is a smaller index. */
  lemma BelowNewKey(a: string, name: string, es: seq<Entry>)
    requires IsIndex(name) && !Precedes(name, a) && a in Names(es) && name !in Names(es)
    ensures IsIndex(a) && DigitsValue(a) < DigitsValue(name)
  {
    IndexValueDistinct(a, name, es);
  }

  /** Every index from the insertion point on is larger than the new key. */
  lemma AboveNewKey(es: seq<Entry>, name: string, k: nat, m: nat)
    requires KeyOrdered(es) && k <= m < |es| && Precedes(name, es[k].name) && IsIndex(es[m].name)
    ensures IsIndex(name) && DigitsValue(name) < DigitsValue(es[m].name)
  {
    if m > k {
      assert IsIndex(es[k].name) && DigitsValue(es[k].name) < DigitsValue(es[m].name);
    }
  }

  /** Entries with the same names at the same places have the same key properties. */
  lemma SameNames(es: seq<Entry>, r: seq<Entry>)
    requires |r| == |es| && forall i :: 0 <= i < |es| ==> r[i].name == es[i].name
    ensures Names(r) == Names(es)
    ensures UniqueNames(es) ==> UniqueNames(r)
    ensures KeyOrdered(es) ==> KeyOrdered(r)
  {
  }

  /**
   * `contents[name] = node`: an existing entry keeps its place and gets the
   * new node; a new array index goes before the first key it precedes, and
   * any other new name is appended.
   */
  function Put(es: seq<Entry>, name: string, node: Node): (r: seq<Entry>)
    ensures Lookup(r, name) == Some(node)
    ensures forall m {:trigger Lookup(r, m)} :: m != name ==> Lookup(r, m) == Lookup(es, m)
  {
    if es == [] then [Entry(name, node)]
    else if es[0].name == name then [Entry(name, node)] + es[1..]
    else if Precedes(name, es[0].name) && name !in Names(es) then [Entry(name, node)] + es
    else [es[0]] + Put(es[1..], name, node)
  }

  /** A stored name keeps its place; a new name is inserted at its insertion point. */
  lemma PutNames(es: seq<Entry>, name: string, node: Node)
    requires UniqueNames(es)
    ensures Names(Put(es, name, node)) ==
              if name in Names(es) then Names(es)
              else var k := InsertionPoint(es, name); Names(es)[..k] + [name] + Names(es)[k..]
  {
    PutShape(es, name, node);
    if name in Names(es) {
      SameNames(es, Put(es, name, node));
    } else {
      var k := InsertionPoint(es, name);
      InsertedNames(es, k, Entry(name, node), Inserted(es, k, Entry(name, node)));
    }
  }

  /** Adding `b`, then `10`, then `2` to an empty directory lists `2`, `10`, `b`. */
  lemma IndexKeysFirst()
    ensures Names(Put(Put(Put([], "b", File("")), "10", File("")), "2", File(""))) == ["2", "10", "b"]
  {
    var f := File("");
    NonDigitNotIndex("b");
    TwoBeforeTen();
    var one := [Entry("b", f)];
    assert Put([], "b", f) == one;
    assert Names(one) == ["b"];
    PutFront(one, "10", f);
    var two := [Entry("10", f)] + one;
    assert Names(two) == ["10", "b"];
    PutFront(two, "2", f);
    assert Names([Entry("2", f)] + two) == ["2", "10", "b"];
  }

  /** `2` and `10` are array indices, and `2` comes first. */
  lemma TwoBeforeTen()
    ensures IsIndex("2") && IsIndex("10") && DigitsValue("2") < DigitsValue("10")
  {
    assert DigitsValue("1") == 1;
    assert DigitsValue("10") == 10;
  }

  /** A name that is not an array index, when new, is appended: the insertion order of `Object.keys`. */
  lemma {:induction false} NonIndexLast(es: seq<Entry>, name: string)
    requires !IsIndex(name)
    ensures InsertionPoint(es, name) == |es|
  {
    if es != [] {
      NonIndexLast(es[1..], name);
    }
  }

  lemma PutNamesHead(es: seq<Entry>, name: string, node: Node)
    requires es != [] && es[0].name == name
    ensures Names(Put(es, name, node)) == Names(es)
  {
    var t := es[1..];
    assert Put(es, name, node) == [Entry(name, node)] + t;
    assert Names([Entry(name, node)] + t) == [name] + Names(t);
    assert Names(es) == [es[0].name] + Names(t);
  }

  /** `delete contents[name]`: every other entry stays, in order. */
  function Delete(es: seq<Entry>, name: string): (r: seq<Entry>)
    ensures Lookup(r, name) == None
    ensures forall m {:trigger Lookup(r, m)} :: m != name ==> Lookup(r, m) == Lookup(es, m)
  {
    if es == [] then []
    else if es[0].name == name then Delete(es[1..], name)
    else [es[0]] + Delete(es[1..], name)
  }

  /** The keys of a JavaScript object are distinct. */
  predicate UniqueNames(es: seq<Entry>)
  {
    forall i, j :: 0 <= i < j < |es| ==> es[i].name != es[j].name
  }

  /**
   * Every directory has distinct names, none of which contains `/`
   * (names are only ever made by `getFileName`).
   */
  predicate WellFormed(n: Node)
  {
    match n
    case File(_) => true
    case Dir(es) => WellFormedEntries(es)
  }

  predicate WellFormedEntries(es: seq<Entry>)
  {
    UniqueNames(es) && KeyOrdered(es) && forall i :: 0 <= i < |es| ==> '/' !in es[i].name && WellFormed(es[i].node)
  }

  /** With distinct names, `Put` either overwrites the one entry of that name or inserts it at its insertion point. */
  lemma PutShape(es: seq<Entry>, name: string, node: Node)
    requires UniqueNames(es)
    ensures name !in Names(es) ==> Put(es, name, node) == Inserted(es, InsertionPoint(es, name), Entry(name, node))
    ensures name in Names(es) ==>
              |Put(es, name, node)| == |es| &&
              forall i :: 0 <= i < |es| ==> Put(es, name, node)[i] == if es[i].name == name then Entry(name, node) else es[i]
  {
    if name in Names(es) {
      PutOverwrites(es, name, node);
    } else {
      PutInserts(es, name, node);
    }
  }

  lemma {:induction false} PutInserts(es: seq<Entry>, name: string, node: Node)
    requires name !in Names(es)
    ensures var k := InsertionPoint(es, name);
            Put(es, name, node) == es[..k] + [Entry(name, node)] + es[k..]
  {
    if es == [] {
    } else if Precedes(name, es[0].name) {
      PutBefore(es, name, node);
    } else {
      NotFirst(es, name);
      PutInserts(es[1..], name, node);
      PutAfter(es, name, node, InsertionPoint(es[1..], name));
    }
  }

  lemma NotFirst(es: seq<Entry>, name: string)
    requires es != [] && name !in Names(es)
    ensures es[0].name != name && name !in Names(es[1..])
  {
    assert Names(es) == [es[0].name] + Names(es[1..]);
  }

  /** A new key that precedes the first goes first. */
  lemma PutBefore(es: seq<Entry>, name: string, node: Node)
    requires es != [] && name !in Names(es) && Precedes(name, es[0].name)
    ensures InsertionPoint(es, name) == 0
    ensures Put(es, name, node) == es[..0] + [Entry(name, node)] + es[0..]
  {
    NotFirst(es, name);
    PutFront(es, name, node);
    InsertFront(Put(es, name, node), es, Entry(name, node));
  }

  /** Inserting at 0 is putting in front. */
  lemma InsertFront(p: seq<Entry>, es: seq<Entry>, e: Entry)
    requires p == [e] + es
    ensures p == es[..0] + [e] + es[0..]
  {
    assert es[..0] == [] && es[0..] == es;
  }

  lemma PutFront(es: seq<Entry>, name: string, node: Node)
    requires es != [] && es[0].name != name && Precedes(name, es[0].name) && name !in Names(es)
    ensures Put(es, name, node) == [Entry(name, node)] + es
  {
  }

  /** A new key that does not precede the first goes where it goes among the rest. */
  lemma PutAfter(es: seq<Entry>, name: string, node: Node, k: nat)
    requires es != [] && name !in Names(es) && !Precedes(name, es[0].name)
    requires k == InsertionPoint(es[1..], name)
    requires Put(es[1..], name, node) == es[1..][..k] + [Entry(name, node)] + es[1..][k..]
    ensures InsertionPoint(es, name) == k + 1
    ensures Put(es, name, node) == es[..k + 1] + [Entry(name, node)] + es[k + 1..]
  {
    NotFirst(es, name);
    assert Put(es, name, node) == [es[0]] + Put(es[1..], name, node);
    InsertAfterFirst(es, k, Entry(name, node));
  }

  /** Inserting into the tail at `k` is inserting into the whole at `k + 1`. */
  lemma InsertAfterFirst(es: seq<Entry>, k: nat, e: Entry)
    requires k < |es|
    ensures [es[0]] + (es[1..][..k] + [e] + es[1..][k..]) == es[..k + 1] + [e] + es[k + 1..]
  {
    var t := es[1..];
    assert es[..k + 1] == [es[0]] + t[..k] && es[k + 1..] == t[k..];
  }

  lemma {:induction false} PutOverwrites(es: seq<Entry>, name: string, node: Node)
    requires UniqueNames(es) && name in Names(es)
    ensures |Put(es, name, node)| == |es|
    ensures forall i :: 0 <= i < |es| ==> Put(es, name, node)[i] == if es[i].name == name then Entry(name, node) else es[i]
  {
    assert Names(es) == [es[0].name] + Names(es[1..]);
    if es[0].name != name {
      assert UniqueNames(es[1..]) by {
        forall i, j | 0 <= i < j < |es[1..]| ensures es[1..][i].name != es[1..][j].name {
          assert es[1..][i] == es[i + 1] && es[1..][j] == es[j + 1];
        }
      }
      PutOverwrites(es[1..], name, node);
    }
  }

  lemma PutWellFormed(es: seq<Entry>, name: string, node: Node)
    requires WellFormedEntries(es) && WellFormed(node) && '/' !in name
    ensures WellFormedEntries(Put(es, name, node))
  {
    PutShape(es, name, node);
    PutUnique(es, name, node);
    PutKeyOrdered(es, name, node);
    var r := Put(es, name, node);
    forall i | 0 <= i < |r| ensures '/' !in r[i].name && WellFormed(r[i].node) {
      if r[i] != Entry(name, node) {
        assert r[i] in es;
      }
    }
  }

  lemma PutUnique(es: seq<Entry>, name: string, node: Node)
    requires UniqueNames(es)
    ensures UniqueNames(Put(es, name, node))
  {
    PutShape(es, name, node);
    if name in Names(es) {
      SameNames(es, Put(es, name, node));
    } else {
      InsertedUnique(es, InsertionPoint(es, name), Entry(name, node));
    }
  }

  /** Assignment keeps the keys in `Object.keys` order. */
  lemma PutKeyOrdered(es: seq<Entry>, name: string, node: Node)
    requires UniqueNames(es) && KeyOrdered(es)
    ensures KeyOrdered(Put(es, name, node))
  {
    PutShape(es, name, node);
    if name in Names(es) {
      SameNames(es, Put(es, name, node));
    } else {
      var k := InsertionPoint(es, name);
      InsertedKeyOrdered(es, Entry(name, node), k, Inserted(es, k, Entry(name, node)));
    }
  }

  /** Two array indices with one value are one name. */
  lemma IndexValueDistinct(a: string, name: string, es: seq<Entry>)
    requires IsIndex(a) && IsIndex(name) && a in Names(es) && name !in Names(es)
    ensures DigitsValue(a) != DigitsValue(name)
  {
    CanonicalDigits(a);
    CanonicalDigits(name);
  }

  /** Deleting keeps exactly the entries of other names. */
  lemma {:induction false} DeleteMembers(es: seq<Entry>, name: string)
    ensures forall e :: e in Delete(es, name) <==> e in es && e.name != name
  {
    if es != [] {
      DeleteMembers(es[1..], name);
      assert es == [es[0]] + es[1..];
    }
  }

  lemma DeleteWellFormed(es: seq<Entry>, name: string)
    requires WellFormedEntries(es)
    ensures WellFormedEntries(Delete(es, name))
  {
    var r := Delete(es, name);
    DeleteSubsequence(es, name);
    DeleteKeyOrdered(es, name);
    DeleteMembers(es, name);
    forall i | 0 <= i < |r| ensures '/' !in r[i].name && WellFormed(r[i].node) {
      assert r[i] in es;
    }
  }

  /** Deleting a key keeps the others in `Object.keys` order. */
  lemma {:induction false} DeleteKeyOrdered(es: seq<Entry>, name: string)
    requires KeyOrdered(es)
    ensures KeyOrdered(Delete(es, name))
  {
    if es != [] {
      var t := es[1..];
      TailKeyOrdered(es);
      DeleteKeyOrdered(t, name);
      if es[0].name != name {
        DeleteMembers(t, name);
        ConsKeyOrdered(es[0], Delete(t, name), t);
      }
    }
  }

  /** Dropping the first key keeps `Object.keys` order. */
  lemma TailKeyOrdered(es: seq<Entry>)
    requires KeyOrdered(es) && es != []
    ensures KeyOrdered(es[1..])
  {
    var t := es[1..];
    forall i, j | 0 <= i < j < |t| && IsIndex(t[j].name)
      ensures IsIndex(t[i].name) && DigitsValue(t[i].name) < DigitsValue(t[j].name)
    {
      assert t[i] == es[i + 1] && t[j] == es[j + 1];
    }
  }

  /** A first key that is ordered before every later index keeps a key-ordered rest ordered. */
  lemma ConsKeyOrdered(x: Entry, d: seq<Entry>, t: seq<Entry>)
    requires KeyOrdered(d) && KeyOrdered([x] + t) && forall e :: e in d ==> e in t
    ensures KeyOrdered([x] + d)
  {
    var r := [x] + d;
    forall i, j | 0 <= i < j < |r| && IsIndex(r[j].name)
      ensures IsIndex(r[i].name) && DigitsValue(r[i].name) < DigitsValue(r[j].name)
    {
      if i == 0 {
        assert r[j] == d[j - 1] && d[j - 1] in t;
        var m :| 0 <= m < |t| && t[m] == d[j - 1];
        assert ([x] + t)[0] == x && ([x] + t)[m + 1] == t[m];
      } else {
        assert r[i] == d[i - 1] && r[j] == d[j - 1];
      }
    }
  }

  lemma {:induction false} DeleteSubsequence(es: seq<Entry>, name: string)
    requires UniqueNames(es)
    ensures UniqueNames(Delete(es, name))
  {
    if es != [] {
      DeleteSubsequence(es[1..], name);
      var r := Delete(es, name);
      DeleteMembers(es[1..], name);
      if es[0].name != name {
        forall j | 0 < j < |r| ensures r[j].name != es[0].name {
          assert r[j] in Delete(es[1..], name);
          assert r[j] in es[1..];
        }
      }
    }
  }

  /**
   * The node reached from `n` by following the segments of `path`, each one
   * looked up in the current directory's contents.
   */
  function Walk(n: Node, path: seq<string>): Option<Node>
    decreases path
  {
    if path == [] then Some(n)
    else match n
      case File(_) => None
      case Dir(es) =>
        match Lookup(es, path[0])
        case None => None
        case Some(child) => Walk(child, path[1..])
  }

  /** Walking a concatenation is walking the first part, then the second from where it ends. */
  lemma {:induction false} WalkAppend(n: Node, a: seq<string>, b: seq<string>)
    ensures Walk(n, a + b) == match Walk(n, a) case None => None case Some(m) => Walk(m, b)
    decreases a
  {
    if a != [] {
      assert (a + b)[0] == a[0] && (a + b)[1..] == a[1..] + b;
      if n.Dir? && Lookup(n.entries, a[0]).Some? {
        WalkAppend(Lookup(n.entries, a[0]).value, a[1..], b);
      }
    } else {
      assert a + b == b;
    }
  }

  /** What a path names: a directory, or a file with its content. */
  datatype Kind = DirKind | FileKind(content: string)

  function KindAt(n: Node, path: seq<string>): Option<Kind>
  {
    match Walk(n, path)
    case None => None
    case Some(File(c)) => Some(FileKind(c))
    case Some(Dir(_)) => Some(DirKind)
  }

  /** `getDirectoryContents`: the contents of the directory at `path`, or none. */
  function DirectoryContents(root: Node, path: string): (r: Option<seq<Entry>>)
    ensures r.Some? <==> KindAt(root, Segments(path)) == Some(DirKind)
    ensures r.Some? ==> Walk(root, Segments(path)) == Some(Dir(r.value))
  {
    match Walk(root, Segments(path))
    case Some(Dir(es)) => Some(es)
    case _ => None
  }

  /** `getFile`: the entry named `getFileName(path)` in the directory `getParentPath(path)`. */
  function GetFile(root: Node, path: string): Option<Node>
  {
    match DirectoryContents(root, ParentPath(path))
    case None => None
    case Some(es) => Lookup(es, FileName(path))
  }

  /** `getFile` finds exactly the node the path walks to, unless the path ends in `/`. */
  lemma GetFileWalks(root: Node, path: string)
    requires FileName(path) != ""
    ensures GetFile(root, path) == Walk(root, Segments(path))
  {
    ParentSegments(path);
    WalkAppend(root, Segments(ParentPath(path)), [FileName(path)]);
  }

  /**
   * The loop of `getDirectoryContents`: start at the root and step into each
   * non-empty segment; give up on a missing name or on a file.
   */
  method GetDirectoryContents(root: Node, path: string) returns (r: Option<seq<Entry>>)
    ensures r == DirectoryContents(root, path)
  {
    var parts := Segments(path);
    var current := root;
    var i := 0;
    while i < |parts|
      invariant 0 <= i <= |parts|
      invariant Walk(root, parts) == Walk(current, parts[i..])
    {
      assert parts[i..][0] == parts[i] && parts[i..][1..] == parts[i + 1..];
      if current.File? {
        return None;
      }
      var child := Lookup(current.entries, parts[i]);
      if child.None? {
        return None;
      }
      current := child.value;
      i := i + 1;
    }
    if current.Dir? {
      r := Some(current.entries);
    } else {
      r := None;
    }
  }

  /** `getFile` as the program runs it: the directory walk, then one lookup. */
  method GetFileNode(root: Node, path: string) returns (r: Option<Node>)
    ensures r == GetFile(root, path)
  {
    var parent := GetDirectoryContents(root, ParentPath(path));
    if parent.None? {
      r := None;
    } else {
      r := Lookup(parent.value, FileName(path));
    }
  }

  /**
   * The tree after the directory at `path` gets the contents `es`: the nested
   * in-place assignment `parent[name] = ...` rebuilt along the path.
   */
  function SetDir(n: Node, path: seq<string>, es: seq<Entry>): (r: Node)
    requires Walk(n, path).Some? && Walk(n, path).value.Dir?
    ensures r.Dir?
    ensures Walk(r, path) == Some(Dir(es))
    decreases path
  {
    if path == [] then Dir(es)
    else
      var child := Lookup(n.entries, path[0]).value;
      Dir(Put(n.entries, path[0], SetDir(child, path[1..], es)))
  }

  /**
   * Replacing the contents of one directory changes what paths below it name
   * and nothing else: every other path names what it named before.
   */
  lemma {:induction false} SetDirKinds(n: Node, path: seq<string>, es: seq<Entry>, q: seq<string>)
    requires Walk(n, path).Some? && Walk(n, path).value.Dir?
    ensures KindAt(SetDir(n, path, es), q) ==
            if path <= q then KindAt(Dir(es), q[|path|..]) else KindAt(n, q)
    decreases path
  {
    if path == [] {
      assert q[|path|..] == q;
    } else if q == [] {
      assert !(path <= q);
    } else {
      SetDirStep(n, path, es, q);
      if q[0] == path[0] {
        var child := Lookup(n.entries, path[0]).value;
        SetDirKinds(child, path[1..], es, q[1..]);
        PrefixStep(path, q);
        KindStep(SetDir(n, path, es), SetDir(child, path[1..], es), q);
        KindStep(n, child, q);
      } else {
        assert !(path <= q);
        assert KindAt(SetDir(n, path, es), q) == KindAt(n, q);
      }
    }
  }

  /** Two nodes whose walks agree after one step name the same kinds. */
  lemma KindStep(n: Node, child: Node, q: seq<string>)
    requires q != [] && Walk(n, q) == Walk(child, q[1..])
    ensures KindAt(n, q) == KindAt(child, q[1..])
  {
  }

  /** One step of the walk through a rebuilt directory. */
  lemma SetDirStep(n: Node, path: seq<string>, es: seq<Entry>, q: seq<string>)
    requires Walk(n, path).Some? && Walk(n, path).value.Dir?
    requires path != [] && q != []
    ensures var child := Lookup(n.entries, path[0]).value;
            Walk(SetDir(n, path, es), q) ==
            if q[0] == path[0] then Walk(SetDir(child, path[1..], es), q[1..]) else Walk(n, q)
    ensures q[0] == path[0] ==> Walk(n, q) == Walk(Lookup(n.entries, path[0]).value, q[1..])
  {
    var child := Lookup(n.entries, path[0]).value;
    var updated := Put(n.entries, path[0], SetDir(child, path[1..], es));
    assert SetDir(n, path, es) == Dir(updated);
    assert Lookup(updated, q[0]) == if q[0] == path[0] then Some(SetDir(child, path[1..], es)) else Lookup(n.entries, q[0]);
  }

  lemma PrefixStep(path: seq<string>, q: seq<string>)
    requires path != [] && q != [] && q[0] == path[0]
    ensures path <= q <==> path[1..] <= q[1..]
    ensures path <= q ==> q[1..][|path| - 1..] == q[|path|..]
  {
    if path <= q {
      assert path[1..] <= q[1..];
    }
  }

  /**
   * Storing `node` under `name` in the directory at `parent`: the paths
   * through that entry now name what `node` holds; all others are unchanged.
   */
  lemma PutEntryKinds(root: Node, parent: seq<string>, es: seq<Entry>, name: string, node: Node, q: seq<string>)
    requires Walk(root, parent) == Some(Dir(es))
    ensures KindAt(SetDir(root, parent, Put(es, name, node)), q) ==
            if parent + [name] <= q then KindAt(node, q[|parent| + 1..]) else KindAt(root, q)
  {
    SetDirKinds(root, parent, Put(es, name, node), q);
    if parent <= q {
      var rest := q[|parent|..];
      KindBelow(root, parent, es, q);
      ExtendPrefix(parent, name, q);
      PutRest(es, name, node, rest);
      if rest != [] {
        assert rest[1..] == q[|parent| + 1..];
      }
    } else {
      assert !(parent + [name] <= q);
    }
  }

  /** Below the rewritten directory, a path through `name` continues into `node`. */
  lemma PutRest(es: seq<Entry>, name: string, node: Node, rest: seq<string>)
    ensures KindAt(Dir(Put(es, name, node)), rest) ==
            if rest != [] && rest[0] == name then KindAt(node, rest[1..]) else KindAt(Dir(es), rest)
  {
    if rest != [] {
      var r := Put(es, name, node);
      assert Lookup(r, rest[0]) == if rest[0] == name then Some(node) else Lookup(es, rest[0]);
      assert Walk(Dir(r), rest) == match Lookup(r, rest[0]) case None => None case Some(c) => Walk(c, rest[1..]);
    }
  }

  /**
   * Deleting the entry `name` from the directory at `parent`: every path
   * through that entry names nothing afterwards; all others are unchanged.
   */
  lemma DeleteEntryKinds(root: Node, parent: seq<string>, es: seq<Entry>, name: string, q: seq<string>)
    requires Walk(root, parent) == Some(Dir(es))
    ensures KindAt(SetDir(root, parent, Delete(es, name)), q) ==
            if parent + [name] <= q then None else KindAt(root, q)
  {
    SetDirKinds(root, parent, Delete(es, name), q);
    if parent <= q {
      var rest := q[|parent|..];
      KindBelow(root, parent, es, q);
      ExtendPrefix(parent, name, q);
      assert parent + [name] <= q <==> rest != [] && rest[0] == name;
      DeleteRest(es, name, rest);
    } else {
      assert !(parent + [name] <= q);
    }
  }

  /** Below the rewritten directory, a path through `name` names nothing. */
  lemma DeleteRest(es: seq<Entry>, name: string, rest: seq<string>)
    ensures KindAt(Dir(Delete(es, name)), rest) ==
            if rest != [] && rest[0] == name then None else KindAt(Dir(es), rest)
  {
    if rest != [] {
      var d := Delete(es, name);
      assert Lookup(d, rest[0]) == if rest[0] == name then None else Lookup(es, rest[0]);
    }
  }

  /** Below a directory, what a path names is what its remainder names from that directory. */
  lemma KindBelow(root: Node, parent: seq<string>, es: seq<Entry>, q: seq<string>)
    requires Walk(root, parent) == Some(Dir(es)) && parent <= q
    ensures KindAt(root, q) == KindAt(Dir(es), q[|parent|..])
  {
    assert q == parent + q[|parent|..];
    WalkAppend(root, parent, q[|parent|..]);
  }

  lemma ExtendPrefix(parent: seq<string>, name: string, q: seq<string>)
    requires parent <= q
    ensures parent + [name] <= q <==> |q| > |parent| && q[|parent|] == name
    ensures |q| > |parent| ==> q[|parent|..] != [] && q[|parent|..][0] == q[|parent|]
  {
    if |q| > |parent| && q[|parent|] == name {
      assert q[..|parent| + 1] == parent + [name];
    }
  }

  /** Rebuilding along a path keeps the tree well-formed when the new contents are. */
  /** Putting a well-formed node into a directory of a well-formed tree keeps the tree well formed. */
  lemma PutAtWellFormed(root: Node, path: seq<string>, es: seq<Entry>, name: string, node: Node)
    requires WellFormed(root) && Walk(root, path) == Some(Dir(es))
    requires WellFormed(node) && '/' !in name
    ensures WellFormed(SetDir(root, path, Put(es, name, node)))
  {
    WalkWellFormed(root, path);
    PutWellFormed(es, name, node);
    SetDirWellFormed(root, path, Put(es, name, node));
  }

  lemma {:induction false} SetDirWellFormed(n: Node, path: seq<string>, es: seq<Entry>)
    requires Walk(n, path).Some? && Walk(n, path).value.Dir?
    requires WellFormed(n) && WellFormedEntries(es)
    ensures WellFormed(SetDir(n, path, es))
    decreases path
  {
    if path != [] {
      var child := Lookup(n.entries, path[0]).value;
      ChildWellFormed(n.entries, path[0]);
      SetDirWellFormed(child, path[1..], es);
      PutWellFormed(n.entries, path[0], SetDir(child, path[1..], es));
    }
  }

  lemma {:induction false} ChildWellFormed(es: seq<Entry>, name: string)
    requires WellFormedEntries(es) && Lookup(es, name).Some?
    ensures WellFormed(Lookup(es, name).value) && '/' !in name
  {
    if es[0].name != name {
      ChildWellFormed(es[1..], name);
    }
  }

  /** Every directory reached in a well-formed tree is well-formed. */
  lemma {:induction false} WalkWellFormed(n: Node, path: seq<string>)
    requires WellFormed(n) && Walk(n, path).Some?
    ensures WellFormed(Walk(n, path).value)
    decreases path
  {
    if path != [] {
      ChildWellFormed(n.entries, path[0]);
      WalkWellFormed(Lookup(n.entries, path[0]).value, path[1..]);
    }
  }
}
