/**
 * The in-memory stand-in for the filesystem the tool walks. A directory is the
 * sequence of its entries in the order `readdirSync` lists them; an entry is a
 * name and either a file with its text or a subdirectory.
 */
module FileTree {
  import opened Seqs

  datatype Node = File(text: string) | Dir(children: seq<Entry>)

  datatype Entry = Entry(name: string, node: Node)

  /** Names starting with "." are hidden and never rendered. */
  predicate Hidden(name: string) {
    |name| > 0 && name[0] == '.'
  }

  ghost predicate UniqueNames(children: seq<Entry>) {
    forall i, j :: 0 <= i < j < |children| ==> children[i].name != children[j].name
  }

  /** `existsSync(join(dir, name))` followed by reading what is there: the node named `name`, if any. */
  function Lookup(children: seq<Entry>, name: string): (r: Option<Node>)
    ensures r.Some? <==> exists i :: 0 <= i < |children| && children[i].name == name
    ensures r.Some? ==> Entry(name, r.value) in children
  {
    if children == [] then None
    else if children[0].name == name then Some(children[0].node)
    else
      var r := Lookup(children[1..], name);
      assert r.Some? ==> Entry(name, r.value) in children by {
        if r.Some? { assert Entry(name, r.value) in children[1..]; }
      }
      r
  }

  /** In a directory whose names are unique, looking a present entry up finds that entry. */
  lemma {:induction false} LookupPresent(children: seq<Entry>, e: Entry)
    requires UniqueNames(children) && e in children
    ensures Lookup(children, e.name) == Some(e.node)
  {
    if children[0] != e {
      assert UniqueNames(children[1..]) by {
        assert forall i :: 0 <= i < |children[1..]| ==> children[1..][i] == children[i + 1];
      }
      assert e in children[1..];
      LookupPresent(children[1..], e);
    }
  }

  /** In a directory whose names are unique, every entry occurs at most once. */
  lemma {:induction false} UniqueCount(children: seq<Entry>)
    requires UniqueNames(children)
    ensures forall x :: multiset(children)[x] <= 1
  {
    if children != [] {
      var head, rest := children[0], children[1..];
      assert children == [head] + rest;
      assert UniqueNames(rest) by {
        forall i, j | 0 <= i < j < |rest| ensures rest[i].name != rest[j].name {
          assert rest[i] == children[i + 1] && rest[j] == children[j + 1];
        }
      }
      UniqueCount(rest);
      assert head !in rest by {
        forall i | 0 <= i < |rest| ensures rest[i] != head {
          assert rest[i] == children[i + 1];
        }
      }
      assert multiset(children) == multiset{head} + multiset(rest);
    }
  }

  /** In a directory whose names are unique, two different entries have different names. */
  lemma DistinctNames(children: seq<Entry>, a: Entry, b: Entry)
    requires UniqueNames(children) && a in children && b in children && a != b
    ensures a.name != b.name
  {
    var i :| 0 <= i < |children| && children[i] == a;
    var j :| 0 <= j < |children| && children[j] == b;
    assert i != j;
  }
}
