/**
 * The public skills listing: skills, already in query order (category, then
 * `order_index`), grouped by category into a dictionary that keeps insertion order.
 */
module SkillGroups {
  import opened Wrappers
  import opened Models

  /** What the listing shows of one skill. */
  datatype Entry = Entry(id: nat, name: string, level: Option<int>, description: Option<string>)

  /** One dictionary item: a category and the entries appended under it. */
  datatype Group = Group(category: string, entries: seq<Entry>)

  function EntryOf(s: Skill): Entry {
    Entry(s.id, s.name, s.level, s.description)
  }

  /** The entries of the skills in category `c`, in input order (the reference definition). */
  function Entries(skills: seq<Skill>, c: string): seq<Entry> {
    if |skills| == 0 then []
    else
      var last := skills[|skills| - 1];
      Entries(skills[..|skills| - 1], c) + (if last.category == c then [EntryOf(last)] else [])
  }

  /** `skills_by_category.get(c)`: the entries of the first item keyed `c`. */
  function Lookup(g: seq<Group>, c: string): Option<seq<Entry>> {
    if |g| == 0 then None
    else if g[0].category == c then Some(g[0].entries)
    else Lookup(g[1..], c)
  }

  /** One iteration of the loop: create the key if missing, then append the entry under it. */
  function AddSkill(g: seq<Group>, s: Skill): (r: seq<Group>)
    ensures |r| >= |g|
  {
    if |g| == 0 then [Group(s.category, [EntryOf(s)])]
    else if g[0].category == s.category then [g[0].(entries := g[0].entries + [EntryOf(s)])] + g[1..]
    else [g[0]] + AddSkill(g[1..], s)
  }

  predicate KeysDistinct(g: seq<Group>) {
    forall i, j :: 0 <= i < j < |g| ==> g[i].category != g[j].category
  }

  predicate NoEmptyGroup(g: seq<Group>) {
    forall i :: 0 <= i < |g| ==> g[i].entries != []
  }

  /** The number of entries over all groups. */
  function Total(g: seq<Group>): nat {
    if |g| == 0 then 0 else |g[0].entries| + Total(g[1..])
  }

  lemma {:induction false} AddSkillLookup(g: seq<Group>, s: Skill, c: string)
    ensures Lookup(AddSkill(g, s), c)
      == if c == s.category then Some(Lookup(g, c).GetOr([]) + [EntryOf(s)]) else Lookup(g, c)
  {
    var r := AddSkill(g, s);
    if |g| == 0 {
      assert r == [Group(s.category, [EntryOf(s)])];
      assert Lookup(g, c).GetOr([]) + [EntryOf(s)] == [EntryOf(s)];
    } else if g[0].category == s.category {
      assert r[1..] == g[1..];
    } else {
      AddSkillLookup(g[1..], s, c);
      assert r[1..] == AddSkill(g[1..], s);
    }
  }

  lemma {:induction false} AddSkillTotal(g: seq<Group>, s: Skill)
    ensures Total(AddSkill(g, s)) == Total(g) + 1
  {
    if |g| > 0 {
      if g[0].category == s.category {
        assert AddSkill(g, s)[1..] == g[1..];
      } else {
        AddSkillTotal(g[1..], s);
        assert AddSkill(g, s)[1..] == AddSkill(g[1..], s);
      }
    }
  }

  /** The key `c` is absent exactly when no item has it. */
  lemma {:induction false} LookupNone(g: seq<Group>, c: string)
    ensures Lookup(g, c).None? <==> forall i :: 0 <= i < |g| ==> g[i].category != c
  {
    if |g| > 0 {
      LookupNone(g[1..], c);
      assert forall i :: 1 <= i < |g| ==> g[i] == g[1..][i - 1];
    }
  }

  /** The categories of the result are those of the input plus the skill's own. */
  lemma {:induction false} AddSkillKeys(g: seq<Group>, s: Skill)
    ensures forall i :: 0 <= i < |AddSkill(g, s)| ==>
      AddSkill(g, s)[i].category == s.category
      || exists j :: 0 <= j < |g| && g[j].category == AddSkill(g, s)[i].category
    ensures |g| > 0 && g[0].category != s.category ==> AddSkill(g, s)[0] == g[0]
  {
    if |g| > 0 && g[0].category != s.category {
      AddSkillKeys(g[1..], s);
      var r := AddSkill(g, s);
      assert r[1..] == AddSkill(g[1..], s);
      forall i | 1 <= i < |r| && r[i].category != s.category
        ensures exists j :: 0 <= j < |g| && g[j].category == r[i].category
      {
        assert r[i] == AddSkill(g[1..], s)[i - 1];
        var j :| 0 <= j < |g[1..]| && g[1..][j].category == r[i].category;
        assert g[j + 1] == g[1..][j];
      }
    }
  }

  lemma {:induction false} AddSkillShape(g: seq<Group>, s: Skill)
    requires KeysDistinct(g) && NoEmptyGroup(g)
    ensures KeysDistinct(AddSkill(g, s)) && NoEmptyGroup(AddSkill(g, s))
  {
    if |g| > 0 && g[0].category != s.category {
      AddSkillShape(g[1..], s);
      AddSkillKeys(g[1..], s);
      var r := AddSkill(g, s);
      var tail := AddSkill(g[1..], s);
      assert r == [g[0]] + tail;
      forall i, j | 0 <= i < j < |r| ensures r[i].category != r[j].category {
        if i == 0 {
          assert r[j] == tail[j - 1];
          if tail[j - 1].category != s.category {
            var k :| 0 <= k < |g[1..]| && g[1..][k].category == tail[j - 1].category;
            assert g[k + 1] == g[1..][k];
          }
        } else {
          assert r[i] == tail[i - 1] && r[j] == tail[j - 1];
        }
      }
      forall i | 0 <= i < |r| ensures r[i].entries != [] {
        if i > 0 { assert r[i] == tail[i - 1]; }
      }
    } else if |g| > 0 {
      var r := AddSkill(g, s);
      forall i | 0 <= i < |r| ensures r[i].entries != [] {
        if i > 0 { assert r[i] == g[i]; }
      }
      forall i, j | 0 <= i < j < |r| ensures r[i].category != r[j].category {
        if i > 0 { assert r[i] == g[i]; }
        assert r[j] == g[j];
      }
    }
  }

  /**
   * `get_skills`' grouping loop. Every category that occurs becomes exactly one key, the
   * group under it holds that category's skills in input order, no group is empty, and the
   * groups together hold exactly one entry per skill.
   */
  function GroupByCategory(skills: seq<Skill>): (r: seq<Group>)
    ensures forall c :: Lookup(r, c) == if Entries(skills, c) == [] then None else Some(Entries(skills, c))
    ensures KeysDistinct(r) && NoEmptyGroup(r)
    ensures Total(r) == |skills|
  {
    if |skills| == 0 then []
    else
      var prev := GroupByCategory(skills[..|skills| - 1]);
      var last := skills[|skills| - 1];
      var r := AddSkill(prev, last);
      AddSkillTotal(prev, last);
      AddSkillShape(prev, last);
      assert forall c :: Lookup(r, c) == if Entries(skills, c) == [] then None else Some(Entries(skills, c)) by {
        forall c ensures Lookup(r, c) == if Entries(skills, c) == [] then None else Some(Entries(skills, c)) {
          AddSkillLookup(prev, last, c);
          var init := skills[..|skills| - 1];
          assert Entries(skills, c)
            == Entries(init, c) + (if last.category == c then [EntryOf(last)] else []);
          assert Lookup(prev, c) == if Entries(init, c) == [] then None else Some(Entries(init, c));
          if c == last.category {
            assert Lookup(prev, c).GetOr([]) == Entries(init, c);
            assert Entries(skills, c) == Entries(init, c) + [EntryOf(last)];
            assert Lookup(r, c) == Some(Entries(skills, c));
          } else {
            assert Entries(skills, c) == Entries(init, c);
          }
        }
      }
      r
  }

  /** A category has entries exactly when some skill belongs to it. */
  lemma {:induction false} EntriesNonEmpty(skills: seq<Skill>, c: string)
    ensures Entries(skills, c) != [] <==> exists i :: 0 <= i < |skills| && skills[i].category == c
  {
    if |skills| > 0 {
      var init := skills[..|skills| - 1];
      EntriesNonEmpty(init, c);
      assert forall i :: 0 <= i < |init| ==> init[i] == skills[i];
    }
  }

  /** Each entry under `c` comes from a skill of category `c`. */
  lemma {:induction false} EntriesSound(skills: seq<Skill>, c: string, e: Entry)
    requires e in Entries(skills, c)
    ensures exists i :: 0 <= i < |skills| && skills[i].category == c && EntryOf(skills[i]) == e
  {
    var init := skills[..|skills| - 1];
    if e in Entries(init, c) {
      EntriesSound(init, c, e);
      var i :| 0 <= i < |init| && init[i].category == c && EntryOf(init[i]) == e;
      assert init[i] == skills[i];
    }
  }

  /** Every skill is listed under its own category. */
  lemma {:induction false} EntriesComplete(skills: seq<Skill>, i: nat)
    requires i < |skills|
    ensures EntryOf(skills[i]) in Entries(skills, skills[i].category)
  {
    var init := skills[..|skills| - 1];
    if i < |skills| - 1 {
      EntriesComplete(init, i);
      assert init[i] == skills[i];
    }
  }

  /** The listing of one skill: the group keyed by its category holds its entry. */
  lemma SkillListedUnderItsCategory(skills: seq<Skill>, i: nat)
    requires i < |skills|
    ensures Lookup(GroupByCategory(skills), skills[i].category).Some?
    ensures EntryOf(skills[i]) in Lookup(GroupByCategory(skills), skills[i].category).value
  {
    EntriesComplete(skills, i);
  }
}
