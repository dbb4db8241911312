/** The synonym closure behind the topic pages (topicAliases in
    site/src/lib/data.ts). Lower-casing is a parameter. */
module Topics {
  import opened Options

  datatype Topic = Topic(slug: string, title: string)

  // One entry of the synonyms object.
  datatype Synonyms = Synonyms(key: string, values: seq<string>)

  type Lower = string -> string

  function Group(lower: Lower, s: Synonyms): set<string> {
    {lower(s.key)} + set v | v in s.values :: lower(v)
  }

  function FindTopic(topics: seq<Topic>, slug: string): Option<Topic> {
    if topics == [] then None
    else if topics[0].slug == slug then Some(topics[0])
    else FindTopic(topics[1..], slug)
  }

  function Seed(lower: Lower, t: Topic): set<string> {
    {lower(t.slug), lower(t.title)}
  }

  // A group that shares one alias with the set lies wholly in it.
  predicate Absorbs(aliases: set<string>, g: set<string>) {
    g * aliases != {} ==> g <= aliases
  }

  ghost predicate Closed(lower: Lower, synonyms: seq<Synonyms>, aliases: set<string>) {
    forall i :: 0 <= i < |synonyms| ==> Absorbs(aliases, Group(lower, synonyms[i]))
  }

  ghost predicate Below(lower: Lower, synonyms: seq<Synonyms>, seed: set<string>, aliases: set<string>) {
    forall other: set<string> :: seed <= other && Closed(lower, synonyms, other) ==> aliases <= other
  }

  // The least closed set that holds the seed.
  ghost predicate Least(lower: Lower, synonyms: seq<Synonyms>, seed: set<string>, aliases: set<string>) {
    seed <= aliases && Closed(lower, synonyms, aliases) && Below(lower, synonyms, seed, aliases)
  }

  function Everything(lower: Lower, synonyms: seq<Synonyms>): set<string> {
    if synonyms == [] then {}
      else Everything(lower, synonyms[..|synonyms| - 1]) + Group(lower, synonyms[|synonyms| - 1])
  }

  lemma {:induction false} GroupInside(lower: Lower, synonyms: seq<Synonyms>, i: nat)
    requires i < |synonyms|
    ensures Group(lower, synonyms[i]) <= Everything(lower, synonyms)
  {
    if i < |synonyms| - 1 {
      GroupInside(lower, synonyms[..|synonyms| - 1], i);
    }
  }

  // Absorbing a touched group stays below every closed set.
  lemma GroupBelow(lower: Lower, synonyms: seq<Synonyms>, seed: set<string>, aliases: set<string>, i: nat)
    requires Below(lower, synonyms, seed, aliases) && i < |synonyms| && Group(lower, synonyms[i]) * aliases != {}
    ensures Below(lower, synonyms, seed, aliases + Group(lower, synonyms[i]))
  {
    var g := Group(lower, synonyms[i]);
    forall other: set<string> | seed <= other && Closed(lower, synonyms, other) ensures aliases + g <= other {
      var a :| a in g && a in aliases;
      assert Absorbs(other, g);
      assert a in g * other;
    }
  }

  method TopicAliases(lower: Lower, topics: seq<Topic>, synonyms: seq<Synonyms>, slug: string)
    returns (aliases: set<string>)
    ensures FindTopic(topics, slug).None? ==> aliases == {}
    ensures FindTopic(topics, slug).Some?
        ==> Least(lower, synonyms, Seed(lower, FindTopic(topics, slug).value), aliases)
  {
    hide Closed, Group;
    var topic := FindTopic(topics, slug);
    if topic.None? {
      return {};
    }
    ghost var seed := Seed(lower, topic.value);
    ghost var all := seed + Everything(lower, synonyms);
    aliases := {lower(slug), lower(topic.value.title)};
    FoundSlug(topics, slug);
    var changed := true;
    while changed
      invariant seed <= aliases <= all && Below(lower, synonyms, seed, aliases)
      invariant !changed ==> Closed(lower, synonyms, aliases)
      decreases all - aliases, changed
    {
      changed := false;
      ghost var before := aliases;
      for i := 0 to |synonyms|
        invariant before <= aliases <= all && Below(lower, synonyms, seed, aliases)
        invariant changed <==> aliases != before
        invariant !changed ==> forall j :: 0 <= j < i ==> Absorbs(aliases, Group(lower, synonyms[j]))
      {
        var group := Group(lower, synonyms[i]);
        if group * aliases != {} {
          GroupBelow(lower, synonyms, seed, aliases, i);
          GroupInside(lower, synonyms, i);
          if !(group <= aliases) {
            changed := true;
          }
          aliases := aliases + group;
        }
      }
      if !changed {
        PassCloses(lower, synonyms, aliases);
      } else {
        assert all - aliases < all - before;
      }
    }
  }

  lemma PassCloses(lower: Lower, synonyms: seq<Synonyms>, aliases: set<string>)
    requires forall j :: 0 <= j < |synonyms| ==> Absorbs(aliases, Group(lower, synonyms[j]))
    ensures Closed(lower, synonyms, aliases)
  {
  }

  lemma {:induction false} FoundSlug(topics: seq<Topic>, slug: string)
    ensures FindTopic(topics, slug).Some?
        ==> FindTopic(topics, slug).value in topics && FindTopic(topics, slug).value.slug == slug
  {
    if topics != [] && topics[0].slug != slug {
      FoundSlug(topics[1..], slug);
    }
  }

  // The order and the repetition of the synonym groups do not matter.
  lemma OrderIrrelevant(lower: Lower, a: seq<Synonyms>, b: seq<Synonyms>, seed: set<string>, x: set<string>,
                        y: set<string>)
    requires Least(lower, a, seed, x) && Least(lower, b, seed, y)
    requires forall g :: HasGroup(lower, a, g) <==> HasGroup(lower, b, g)
    ensures x == y
  {
    hide Group;
    SameGroups(lower, a, b, y);
    SameGroups(lower, b, a, x);
  }

  ghost predicate HasGroup(lower: Lower, synonyms: seq<Synonyms>, g: set<string>) {
    exists i :: 0 <= i < |synonyms| && Group(lower, synonyms[i]) == g
  }

  lemma SameGroups(lower: Lower, a: seq<Synonyms>, b: seq<Synonyms>, aliases: set<string>)
    requires Closed(lower, b, aliases)
    requires forall g :: HasGroup(lower, a, g) ==> HasGroup(lower, b, g)
    ensures Closed(lower, a, aliases)
  {
    hide Group;
    forall i | 0 <= i < |a| ensures Absorbs(aliases, Group(lower, a[i])) {
      var g := Group(lower, a[i]);
      assert HasGroup(lower, a, g);
      var j :| 0 <= j < |b| && Group(lower, b[j]) == g;
      assert Absorbs(aliases, Group(lower, b[j]));
    }
  }

  // Every alias is there for a reason: it is in the seed, or in a group with
  // another alias that was there before it.
  lemma EveryAliasTouched(lower: Lower, synonyms: seq<Synonyms>, seed: set<string>, aliases: set<string>, a: string)
    requires Least(lower, synonyms, seed, aliases) && a in aliases && a !in seed
    ensures exists i :: 0 <= i < |synonyms| && a in Group(lower, synonyms[i]) && Group(lower, synonyms[i]) <= aliases
                        && Group(lower, synonyms[i]) * (aliases - {a}) != {}
  {
    hide Group;
    var rest := aliases - {a};
    assert !Closed(lower, synonyms, rest);
    var i :| 0 <= i < |synonyms| && !Absorbs(rest, Group(lower, synonyms[i]));
    assert Absorbs(aliases, Group(lower, synonyms[i]));
    var g := Group(lower, synonyms[i]);
    assert g * rest <= g * aliases;
  }
}
