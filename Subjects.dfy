/** The subject chips of the profile form: the fixed catalog and the toggle
    that adds a subject to the selection or takes it out. */
module Subjects {

  /** The catalog the form offers, in display order. */
  const SUBJECT_LIBRARY: seq<string> := [
    "Algebra", "Geometry", "Calculus", "Statistics", "Physics", "Chemistry", "Biology",
    "English", "History", "Economics", "Computer Science", "Spanish", "French"
  ]

  function Members(list: seq<string>): set<string> {
    set x | x in list
  }

  predicate NoDuplicates(list: seq<string>) {
    forall i, j :: 0 <= i < j < |list| ==> list[i] != list[j]
  }

  /** `r` is `list` with some elements left out and the rest in their order. */
  predicate IsSubsequence(r: seq<string>, list: seq<string>)
    decreases |list|
  {
    if r == [] then true
    else if list == [] then false
    else if r[0] == list[0] then IsSubsequence(r[1..], list[1..])
    else IsSubsequence(r, list[1..])
  }

  /** `list.filter(x => x !== s)`: every occurrence of `s` removed, every
      other occurrence of every other element kept. */
  function RemoveAll(list: seq<string>, s: string): (r: seq<string>)
    ensures s !in r
    ensures multiset(r) == multiset(list)[s := 0]
  {
    if list == [] then []
    else
      assert list == [list[0]] + list[1..];
      if list[0] == s then RemoveAll(list[1..], s)
      else [list[0]] + RemoveAll(list[1..], s)
  }

  /** `prev.includes(s) ? prev.filter(x => x !== s) : [...prev, s]`. */
  function Toggle(list: seq<string>, s: string): (r: seq<string>)
    ensures s in r <==> s !in list
  {
    if s in list then RemoveAll(list, s) else list + [s]
  }

  /** Removal keeps the remaining elements in their original order. */
  lemma {:induction false} RemoveAllKeepsOrder(list: seq<string>, s: string)
    ensures IsSubsequence(RemoveAll(list, s), list)
  {
    if list != [] {
      RemoveAllKeepsOrder(list[1..], s);
      if list[0] != s {
        assert ([list[0]] + RemoveAll(list[1..], s))[1..] == RemoveAll(list[1..], s);
      } else {
        SubsequenceOfTail(RemoveAll(list[1..], s), list);
      }
    }
  }

  lemma {:induction false} SubsequenceOfTail(r: seq<string>, list: seq<string>)
    requires list != [] && IsSubsequence(r, list[1..])
    ensures IsSubsequence(r, list)
    decreases |list|, 0
  {
    if r != [] && r[0] == list[0] {
      // r[1..] is a subsequence of list[1..] because r is
      SubsequenceDropHead(r, list[1..]);
    }
  }

  lemma {:induction false} SubsequenceDropHead(r: seq<string>, list: seq<string>)
    requires r != [] && IsSubsequence(r, list)
    ensures IsSubsequence(r[1..], list)
    decreases |list|, 1
  {
    assert list != [];
    if r[0] == list[0] {
      if r[1..] != [] {
        SubsequenceOfTail(r[1..], list);
      }
    } else {
      SubsequenceDropHead(r, list[1..]);
      if r[1..] != [] {
        SubsequenceOfTail(r[1..], list);
      }
    }
  }

  /** Removing an element that does not occur changes nothing. */
  lemma {:induction false} RemoveAbsent(list: seq<string>, s: string)
    requires s !in list
    ensures RemoveAll(list, s) == list
  {
    if list != [] {
      assert s !in list[1..];
      RemoveAbsent(list[1..], s);
      assert list == [list[0]] + list[1..];
    }
  }

  /** Removal distributes over concatenation. */
  lemma {:induction false} RemoveAllAppend(a: seq<string>, b: seq<string>, s: string)
    ensures RemoveAll(a + b, s) == RemoveAll(a, s) + RemoveAll(b, s)
  {
    if a != [] {
      assert (a + b)[1..] == a[1..] + b;
      RemoveAllAppend(a[1..], b, s);
    } else {
      assert a + b == b;
    }
  }

  /** Toggling flips the membership of `s` and of nothing else: the selection,
      read as a set, becomes its symmetric difference with {s}. */
  lemma ToggleMembers(list: seq<string>, s: string)
    ensures Members(Toggle(list, s)) == if s in list then Members(list) - {s} else Members(list) + {s}
  {
    var r := Toggle(list, s);
    if s in list {
      forall x | x != s ensures x in r <==> x in list {
        assert multiset(r)[x] == multiset(list)[x];
      }
    }
  }

  /** What the toggle does to the sequence itself: a present subject loses
      every occurrence and the others keep their order; an absent one is
      appended at the end. */
  lemma ToggleResult(list: seq<string>, s: string)
    ensures s in list ==> s !in Toggle(list, s) && IsSubsequence(Toggle(list, s), list) &&
                          multiset(Toggle(list, s)) == multiset(list)[s := 0]
    ensures s !in list ==> Toggle(list, s) == list + [s]
  {
    RemoveAllKeepsOrder(list, s);
  }

  lemma NoDuplicatesCons(h: string, r: seq<string>)
    requires h !in r && NoDuplicates(r)
    ensures NoDuplicates([h] + r)
  {
    forall i, j | 0 <= i < j < |[h] + r| ensures ([h] + r)[i] != ([h] + r)[j] {
      if i > 0 {
        assert ([h] + r)[i] == r[i - 1] && ([h] + r)[j] == r[j - 1];
      } else {
        assert ([h] + r)[j] == r[j - 1];
      }
    }
  }

  lemma {:induction false} RemoveAllNoDuplicates(list: seq<string>, s: string)
    requires NoDuplicates(list)
    ensures NoDuplicates(RemoveAll(list, s))
  {
    if list != [] {
      assert NoDuplicates(list[1..]) by {
        forall i, j | 0 <= i < j < |list[1..]| ensures list[1..][i] != list[1..][j] {
          assert list[1..][i] == list[i + 1] && list[1..][j] == list[j + 1];
        }
      }
      RemoveAllNoDuplicates(list[1..], s);
      if list[0] != s {
        var rest := RemoveAll(list[1..], s);
        assert list[0] !in list[1..] by {
          forall k | 0 <= k < |list[1..]| ensures list[1..][k] != list[0] {
            assert list[1..][k] == list[k + 1];
          }
        }
        assert list[0] !in rest by {
          assert multiset(rest)[list[0]] == multiset(list[1..])[list[0]] == 0;
        }
        NoDuplicatesCons(list[0], rest);
      }
    }
  }

  /** A selection without duplicates stays without duplicates. */
  lemma ToggleKeepsNoDuplicates(list: seq<string>, s: string)
    requires NoDuplicates(list)
    ensures NoDuplicates(Toggle(list, s))
  {
    if s in list {
      RemoveAllNoDuplicates(list, s);
    } else {
      var r := list + [s];
      forall i, j | 0 <= i < j < |r| ensures r[i] != r[j] {
        if j == |list| {
          assert r[i] == list[i];
        } else {
          assert r[i] == list[i] && r[j] == list[j];
        }
      }
    }
  }

  /** Toggling an absent subject twice restores the selection exactly. */
  lemma ToggleTwiceAbsent(list: seq<string>, s: string)
    requires s !in list
    ensures Toggle(Toggle(list, s), s) == list
  {
    assert s in list + [s];
    RemoveAllAppend(list, [s], s);
    RemoveAbsent(list, s);
    assert RemoveAll([s], s) == [];
  }

  /** Toggling a present subject twice moves it to the end: the same members,
      but not in general the same sequence. */
  lemma ToggleTwicePresent(list: seq<string>, s: string)
    requires s in list
    ensures Toggle(Toggle(list, s), s) == RemoveAll(list, s) + [s]
    ensures Members(Toggle(Toggle(list, s), s)) == Members(list)
  {
    ToggleMembers(list, s);
    ToggleMembers(Toggle(list, s), s);
  }

  /** The two orders differ on a concrete selection. */
  lemma ToggleTwicePresentReorders()
    ensures Toggle(Toggle(["Algebra", "Physics"], "Algebra"), "Algebra") == ["Physics", "Algebra"]
  {
    ToggleTwicePresent(["Algebra", "Physics"], "Algebra");
    assert RemoveAll(["Physics"], "Algebra") == ["Physics"];
  }

  /** Toggling catalog subjects keeps a catalog selection inside the catalog. */
  lemma ToggleStaysInCatalog(list: seq<string>, s: string)
    requires Members(list) <= Members(SUBJECT_LIBRARY)
    requires s in SUBJECT_LIBRARY
    ensures Members(Toggle(list, s)) <= Members(SUBJECT_LIBRARY)
  {
    ToggleMembers(list, s);
  }
}
