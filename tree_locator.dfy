/**
 * The tree locator: a depth-first search of a ROOT directory hierarchy for
 * the first tree-like object (_iter_trees and find_tree).
 */
module TreeLocator {
  import opened Wrappers

  /**
   * An entry of a directory, as the container lists it: an object with
   * `numbranches` (a tree), an object with `items` (a directory), or anything
   * else.  Keys are the decoded names, possibly with a ";<cycle>" suffix.
   */
  datatype Entry =
    | Tree(key: string)
    | Dir(key: string, entries: seq<Entry>)
    | Other(key: string)

  /** The text of `key` before its first ';' (key.split(";")[0]). */
  function StripCycle(key: string): (r: string)
    ensures r <= key
    ensures ';' !in r
    ensures r == key || key[|r|] == ';'
  {
    if key == [] || key[0] == ';' then [] else [key[0]] + StripCycle(key[1..])
  }

  /** The paths _iter_trees(dir, prefix) yields, in the order it yields them. */
  function TreesIn(entries: seq<Entry>, prefix: string): seq<string>
    decreases entries
  {
    if entries == [] then []
    else
      var here :=
        match entries[0]
        case Tree(k) => [prefix + StripCycle(k)]
        case Dir(k, sub) => TreesIn(sub, prefix + StripCycle(k) + "/")
        case Other(_) => [];
      here + TreesIn(entries[1..], prefix)
  }

  /** find_tree: the first path of the search, or None where it raises. */
  function FindTree(top: seq<Entry>): Option<string> {
    var paths := TreesIn(top, "");
    if paths == [] then None else Some(paths[0])
  }

  /** The model of f[treepath]: `p` names one of the trees of the file. */
  predicate HasTreePath(top: seq<Entry>, p: string) {
    p in TreesIn(top, "")
  }

  /**
   * Independent reference: `p` is `prefix` followed by the stripped keys of a
   * chain of directories and then a tree, joined by '/'.
   */
  ghost predicate Located(entries: seq<Entry>, prefix: string, p: string)
    decreases entries
  {
    exists i | 0 <= i < |entries| ::
      match entries[i]
      case Tree(k) => p == prefix + StripCycle(k)
      case Dir(k, sub) => Located(sub, prefix + StripCycle(k) + "/", p)
      case Other(_) => false
  }

  /** No entry before position `i` locates any path. */
  ghost predicate NoneBefore(entries: seq<Entry>, prefix: string, i: int)
    requires 0 <= i <= |entries|
  {
    forall j, q | 0 <= j < i :: !Located([entries[j]], prefix, q)
  }

  /**
   * Independent reference for the search order: `p` is located through the
   * first entry that locates anything at all, and, when that entry is a
   * directory, through the first such entry of that directory, and so on
   * down.  This is depth-first search in entry order.
   */
  ghost predicate FirstLocated(entries: seq<Entry>, prefix: string, p: string)
    decreases entries
  {
    exists i | 0 <= i < |entries| ::
      && NoneBefore(entries, prefix, i)
      && match entries[i]
         case Tree(k) => p == prefix + StripCycle(k)
         case Dir(k, sub) => FirstLocated(sub, prefix + StripCycle(k) + "/", p)
         case Other(_) => false
  }

  /** Any string with the three properties of StripCycle is StripCycle's result. */
  lemma {:induction false} StripCycleUnique(key: string, r: string)
    requires r <= key && ';' !in r && (r == key || key[|r|] == ';')
    ensures r == StripCycle(key)
  {
    if key != [] && key[0] != ';' {
      StripCycleUnique(key[1..], r[1..]);
    }
  }

  lemma StripCycleIdempotent(key: string)
    ensures StripCycle(StripCycle(key)) == StripCycle(key)
  {
    var r := StripCycle(key);
    StripCycleUnique(r, r);
  }

  lemma {:induction false} TreesInAppend(a: seq<Entry>, b: seq<Entry>, prefix: string)
    ensures TreesIn(a + b, prefix) == TreesIn(a, prefix) + TreesIn(b, prefix)
    decreases a
  {
    if a != [] {
      assert (a + b)[0] == a[0];
      assert (a + b)[1..] == a[1..] + b;
      TreesInAppend(a[1..], b, prefix);
    } else {
      assert a + b == b;
    }
  }

  /** The search yields exactly the located paths: sound and complete. */
  lemma {:induction false} TreesInLocated(entries: seq<Entry>, prefix: string, p: string)
    ensures p in TreesIn(entries, prefix) <==> Located(entries, prefix, p)
    decreases entries
  {
    if entries != [] {
      var e := entries[0];
      var rest := entries[1..];
      assert entries == [e] + rest;
      TreesInLocated(rest, prefix, p);
      match e {
        case Tree(k) =>
        case Dir(k, sub) => TreesInLocated(sub, prefix + StripCycle(k) + "/", p);
        case Other(_) =>
      }
      if Located(entries, prefix, p) {
        var i :| 0 <= i < |entries| && match entries[i]
          case Tree(k) => p == prefix + StripCycle(k)
          case Dir(k, sub) => Located(sub, prefix + StripCycle(k) + "/", p)
          case Other(_) => false;
        if i > 0 {
          assert entries[i] == rest[i - 1];
        }
      }
      if Located(rest, prefix, p) {
        var i :| 0 <= i < |rest| && match rest[i]
          case Tree(k) => p == prefix + StripCycle(k)
          case Dir(k, sub) => Located(sub, prefix + StripCycle(k) + "/", p)
          case Other(_) => false;
        assert rest[i] == entries[i + 1];
      }
    }
  }

  /**
   * find_tree succeeds exactly when some tree is located anywhere in the
   * hierarchy, and what it returns is a located path that the lookup f[path]
   * finds again.
   */
  lemma FindTreeSound(top: seq<Entry>)
    ensures FindTree(top).Some? ==> Located(top, "", FindTree(top).value)
    ensures FindTree(top).Some? ==> HasTreePath(top, FindTree(top).value)
    ensures FindTree(top).None? <==> forall p :: !Located(top, "", p)
  {
    var paths := TreesIn(top, "");
    if paths != [] {
      TreesInLocated(top, "", paths[0]);
    } else {
      forall p ensures !Located(top, "", p) {
        TreesInLocated(top, "", p);
      }
    }
  }

  /**
   * Depth-first, entry order: a tree in an earlier part of a directory listing
   * wins over everything later; only when the earlier part holds no tree at
   * any depth does the search reach the rest.
   */
  lemma FindTreeEntryOrder(a: seq<Entry>, b: seq<Entry>)
    ensures FindTree(a + b) == if FindTree(a).Some? then FindTree(a) else FindTree(b)
  {
    TreesInAppend(a, b, "");
  }

  /**
   * The first path of the search is the depth-first, entry-order first one,
   * at every level of the hierarchy.
   */
  lemma {:induction false} TreesInFirst(entries: seq<Entry>, prefix: string)
    requires TreesIn(entries, prefix) != []
    ensures FirstLocated(entries, prefix, TreesIn(entries, prefix)[0])
    decreases entries
  {
    var e := entries[0];
    var rest := entries[1..];
    var p := TreesIn(entries, prefix)[0];
    assert TreesIn([e], prefix) == TreesIn([e] + [], prefix);
    assert entries == [e] + rest;
    TreesInAppend([e], rest, prefix);
    if TreesIn([e], prefix) != [] {
      assert NoneBefore(entries, prefix, 0);
      match e {
        case Tree(k) =>
          assert p == prefix + StripCycle(k);
        case Dir(k, sub) =>
          TreesInFirst(sub, prefix + StripCycle(k) + "/");
        case Other(_) =>
      }
    } else {
      TreesInFirst(rest, prefix);
      var i :| 0 <= i < |rest| && NoneBefore(rest, prefix, i) && match rest[i]
        case Tree(k) => p == prefix + StripCycle(k)
        case Dir(k, sub) => FirstLocated(sub, prefix + StripCycle(k) + "/", p)
        case Other(_) => false;
      forall j, q | 0 <= j < i + 1
        ensures !Located([entries[j]], prefix, q)
      {
        if j == 0 {
          TreesInLocated([e], prefix, q);
        } else {
          assert entries[j] == rest[j - 1];
        }
      }
      assert entries[i + 1] == rest[i];
    }
  }

  /** find_tree returns the first tree of a depth-first, entry-order search. */
  lemma FindTreeFirst(top: seq<Entry>, p: string)
    requires FindTree(top) == Some(p)
    ensures FirstLocated(top, "", p)
  {
    TreesInFirst(top, "");
  }
}
