/**
 * The selection bookkeeping of frontend/src/MainApp.js: which repositories
 * the user has selected, in the order they were selected, and the branches
 * and pull requests fetched for each repository name.
 */
module MainApp {
  import opened Wrappers
  import opened Seqs
  import opened Records

  /** `{ branches, pullRequests }` as stored per repository name. */
  datatype RepoData = RepoData(branches: seq<Branch>, pullRequests: seq<PullRequest>)

  /** `selectedRepos.filter((r) => r !== name)` */
  function Without(s: seq<string>, name: string): (r: seq<string>)
    ensures |r| <= |s|
    ensures name !in r
    ensures forall x :: x != name ==> (x in r <==> x in s)
  {
    if s == [] then []
    else (if s[0] == name then [] else [s[0]]) + Without(s[1..], name)
  }

  /** The selection after `handleToggleRepo`: the name is removed if present, appended otherwise. */
  function Toggled(s: seq<string>, name: string): (r: seq<string>)
    ensures name in r <==> name !in s
    ensures forall x :: x != name ==> (x in r <==> x in s)
    ensures name !in s ==> r == s + [name]
  {
    if name in s then Without(s, name) else s + [name]
  }

  /** The one-key spread `{ ...prev, [name]: { branches: b || [], pullRequests: p || [] } }`. */
  function MergeRepoData(prev: map<string, RepoData>, name: string,
                         branches: Option<seq<Branch>>, pullRequests: Option<seq<PullRequest>>)
    : (next: map<string, RepoData>)
    ensures next.Keys == prev.Keys + {name}
    ensures next[name] == RepoData(branches.GetOr([]), pullRequests.GetOr([]))
    ensures branches.None? ==> next[name].branches == []
    ensures pullRequests.None? ==> next[name].pullRequests == []
    ensures forall k :: k in prev && k != name ==> next[k] == prev[k]
  {
    prev[name := RepoData(branches.GetOr([]), pullRequests.GetOr([]))]
  }

  /**
   * Two of the component's four state variables, `selectedRepos` and
   * `repoData`; `token` and `repos` are not modelled.
   */
  class MainApp {
    var selectedRepos: seq<string>
    var repoData: map<string, RepoData>

    /** `useState([])` and `useState({})`. */
    constructor ()
      ensures selectedRepos == [] && repoData == map[]
    {
      selectedRepos := [];
      repoData := map[];
    }

    /** The synchronous part of `handleToggleRepo`: copy the selection, then filter or push. */
    method ToggleRepo(name: string)
      modifies this
      ensures selectedRepos == Toggled(old(selectedRepos), name)
      ensures repoData == old(repoData)
    {
      var updated := selectedRepos;
      if name in selectedRepos {
        updated := Without(selectedRepos, name);
      } else {
        updated := updated + [name];
      }
      selectedRepos := updated;
    }

    /** The `setRepoData` updater once both fetches for `name` have answered. */
    method StoreRepoData(name: string, branches: Option<seq<Branch>>, pullRequests: Option<seq<PullRequest>>)
      modifies this
      ensures repoData == MergeRepoData(old(repoData), name, branches, pullRequests)
      ensures selectedRepos == old(selectedRepos)
    {
      repoData := repoData[name := RepoData(branches.GetOr([]), pullRequests.GetOr([]))];
    }
  }

  // ------------------------------------------------------------ properties

  /** After a toggle the name is selected exactly when it was not selected before. */
  lemma ToggleFlips(s: seq<string>, name: string)
    ensures name in Toggled(s, name) <==> name !in s
  {
  }

  /** A toggle leaves the membership of every other name as it was. */
  lemma ToggleKeepsOthers(s: seq<string>, name: string, other: string)
    requires other != name
    ensures other in Toggled(s, name) <==> other in s
  {
  }

  /** Removal drops every occurrence of the name and no other element. */
  lemma {:induction false} WithoutCounts(s: seq<string>, name: string)
    ensures multiset(Without(s, name)) == multiset(s)[name := 0]
  {
    if s != [] {
      assert s == [s[0]] + s[1..];
      WithoutCounts(s[1..], name);
    }
  }

  /** Removal works element by element, so it keeps the relative order of what it keeps. */
  lemma {:induction false} WithoutAppend(a: seq<string>, b: seq<string>, name: string)
    ensures Without(a + b, name) == Without(a, name) + Without(b, name)
  {
    if a != [] {
      assert (a + b)[1..] == a[1..] + b;
      WithoutAppend(a[1..], b, name);
    } else {
      assert a + b == b;
    }
  }

  /** A single element survives removal unless it is the name. */
  lemma WithoutOne(x: string, name: string)
    ensures Without([x], name) == if x == name then [] else [x]
  {
    assert [x][1..] == [];
  }

  /** Removing a name that is not there changes nothing. */
  lemma {:induction false} WithoutAbsent(s: seq<string>, name: string)
    requires name !in s
    ensures Without(s, name) == s
  {
    if s != [] {
      assert s == [s[0]] + s[1..];
      WithoutAbsent(s[1..], name);
    }
  }

  /** Adding appends the name at the end and leaves the earlier elements in place. */
  lemma ToggleAppends(s: seq<string>, name: string)
    requires name !in s
    ensures |Toggled(s, name)| == |s| + 1
    ensures Toggled(s, name)[..|s|] == s && Toggled(s, name)[|s|] == name
  {
  }

  /** Removal keeps a selection free of duplicates. */
  lemma {:induction false} WithoutNoDuplicates(s: seq<string>, name: string)
    requires NoDuplicates(s)
    ensures NoDuplicates(Without(s, name))
  {
    if s != [] {
      var tail := s[1..];
      assert NoDuplicates(tail) by {
        forall i, j | 0 <= i < j < |tail| ensures tail[i] != tail[j] {
          assert tail[i] == s[i + 1] && tail[j] == s[j + 1];
        }
      }
      WithoutNoDuplicates(tail, name);
      var r := Without(tail, name);
      if s[0] != name {
        assert s[0] !in tail by {
          forall j | 0 <= j < |tail| ensures tail[j] != s[0] {
            assert tail[j] == s[j + 1];
          }
        }
        assert s[0] !in r;
        var r' := [s[0]] + r;
        forall i, j | 0 <= i < j < |r'| ensures r'[i] != r'[j] {
          if i == 0 {
            assert r'[j] == r[j - 1];
          } else {
            assert r'[i] == r[i - 1] && r'[j] == r[j - 1];
          }
        }
      }
    }
  }

  /** If the selection had no duplicates before a toggle, it has none after. */
  lemma ToggleNoDuplicates(s: seq<string>, name: string)
    requires NoDuplicates(s)
    ensures NoDuplicates(Toggled(s, name))
  {
    if name in s {
      WithoutNoDuplicates(s, name);
    } else {
      var r := s + [name];
      forall i, j | 0 <= i < j < |r| ensures r[i] != r[j] {
        if j == |s| {
          assert r[i] == s[i];
        } else {
          assert r[i] == s[i] && r[j] == s[j];
        }
      }
    }
  }

  /**
   * Toggling twice restores a selection that did not hold the name; one that
   * did hold it ends with every copy of the name replaced by one at the end.
   */
  lemma ToggleTwice(s: seq<string>, name: string)
    ensures name !in s ==> Toggled(Toggled(s, name), name) == s
    ensures name in s ==> Toggled(Toggled(s, name), name) == Without(s, name) + [name]
  {
    if name !in s {
      WithoutAppend(s, [name], name);
      WithoutAbsent(s, name);
      WithoutOne(name, name);
      assert Without([name], name) == [];
      assert Toggled(s, name) == s + [name];
    }
  }
}
