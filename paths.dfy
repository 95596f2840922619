/**
 * Dotted field paths and the rename table ("correspondings") that both passes
 * consult with them.
 */
module Paths {
  import opened Wrappers
  import opened Text

  /** The rename table: full un-renamed dotted path to the key to emit. */
  type Table = map<string, string>

  /** A `null` table is replaced by an empty one before either pass starts. */
  function TableOf(correspondings: Option<Table>): Table
  {
    if correspondings.None? then map[] else correspondings.value
  }

  /** The path of member `name` below `prefix`: the bare name at the root, `prefix.name` below it. */
  function ChildPath(prefix: string, name: string): string
  {
    prefix + (if |prefix| > 0 then "." else "") + name
  }

  /** The key emitted for member `name` found at `path`. */
  function Rename(table: Table, path: string, name: string): string
  {
    if path in table then table[path] else name
  }

  /** The path of a member reached through the (non-empty) names `names`, from the root down. */
  function PathOf(names: seq<string>): string
  {
    Join(".", names)
  }

  /**
   * Extending a path by one member gives the dot-join of the names from the
   * root, as long as no name on the way is empty.
   */
  lemma ChildPathExtends(names: seq<string>, name: string)
    requires forall i :: 0 <= i < |names| ==> names[i] != ""
    ensures ChildPath(PathOf(names), name) == PathOf(names + [name])
  {
    if |names| == 0 {
      assert names + [name] == [name];
    } else {
      JoinSnoc(".", names, name);
      assert |PathOf(names)| > 0 by {
        JoinHeadLength(".", names);
      }
    }
  }

  lemma {:induction false} JoinHeadLength(sep: string, parts: seq<string>)
    requires |parts| > 0
    ensures |Join(sep, parts)| >= |parts[0]|
  {
    if |parts| > 1 {
      JoinHeadLength(sep, parts[1..]);
    }
  }

  /** An empty member name at the root is swallowed: its children get the same paths as root members. */
  lemma EmptyRootNameCollapses(name: string)
    ensures ChildPath(ChildPath("", ""), name) == ChildPath("", name)
  {
  }

  /** Without a table, and with an empty one, every key is the member's own name. */
  lemma NoTableKeepsNames(correspondings: Option<Table>, path: string, name: string)
    requires correspondings.None? || correspondings == Some(map[])
    ensures Rename(TableOf(correspondings), path, name) == name
  {
  }
}
