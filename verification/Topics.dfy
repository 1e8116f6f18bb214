// The topic tree: validation, which turns ids into paths (internal/content/topics.go),
// and the counts shown beside it (internal/api/view.go).

module Topics {
  import opened Lists
  import opened Wrappers
  import opened Labs

  datatype Topic = Topic(id: string, title: Localized, children: seq<Topic>)

  datatype TopicError =
    | NoId(parent: string)
    | SlashInId(id: string)
    | DuplicateTopic(id: string)
    | NoTitle(id: string, lang: string)

  // ----- validation

  function PathTo(parent: string, id: string): string {
    if parent == "" then id else parent + "/" + id
  }

  function TitleErrors(id: string, title: Localized): seq<TopicError> {
    (if title.zh == "" then [NoTitle(id, "zh")] else []) + (if title.en == "" then [NoTitle(id, "en")] else [])
  }

  datatype Validated = Validated(errs: seq<TopicError>, topics: seq<Topic>, seen: set<string>)

  // What validation reports, the tree it leaves and the ids it has seen.
  function ValidatedOne(parent: string, t: Topic, seen: set<string>): Validated
    decreases t, 1
  {
    if t.id == "" then Validated([NoId(parent)], [t], seen)
    else if '/' in t.id then Validated([SlashInId(t.id)], [t], seen)
    else
      var id := PathTo(parent, t.id);
      var below := ValidatedAll(id, t.children, seen + {id});
      Validated((if id in seen then [DuplicateTopic(id)] else []) + TitleErrors(id, t.title) + below.errs,
                [Topic(id, t.title, below.topics)], below.seen)
  }

  function ValidatedAll(parent: string, topics: seq<Topic>, seen: set<string>): Validated
    decreases topics, 0
  {
    if topics == [] then Validated([], [], seen)
    else
      var first := ValidatedOne(parent, topics[0], seen);
      var rest := ValidatedAll(parent, topics[1..], first.seen);
      Validated(first.errs + rest.errs, first.topics + rest.topics, rest.seen)
  }

  method ValidateTopics(parent: string, topics: seq<Topic>, seen: set<string>) returns (v: Validated)
    ensures v == ValidatedAll(parent, topics, seen)
    decreases topics, 0
  {
    var errs, done, now := [], [], seen;
    for i := 0 to |topics|
      invariant var rest := ValidatedAll(parent, topics[i..], now);
                ValidatedAll(parent, topics, seen) == Validated(errs + rest.errs, done + rest.topics, rest.seen)
    {
      assert topics[i..][1..] == topics[i + 1..];
      ghost var rest := ValidatedAll(parent, topics[i + 1..], ValidatedOne(parent, topics[i], now).seen);
      var one := ValidateTopic(parent, topics[i], now);
      assert errs + (one.errs + rest.errs) == (errs + one.errs) + rest.errs;
      assert done + (one.topics + rest.topics) == (done + one.topics) + rest.topics;
      errs, done, now := errs + one.errs, done + one.topics, one.seen;
    }
    return Validated(errs, done, now);
  }

  method ValidateTopic(parent: string, t: Topic, seen: set<string>) returns (v: Validated)
    ensures v == ValidatedOne(parent, t, seen)
    decreases t, 1
  {
    if t.id == "" { return Validated([NoId(parent)], [t], seen); }
    if '/' in t.id { return Validated([SlashInId(t.id)], [t], seen); }
    var id := if parent != "" then parent + "/" + t.id else t.id;
    var errs := if id in seen then [DuplicateTopic(id)] else [];
    errs := errs + TitleErrors(id, t.title);
    var below := ValidateTopics(id, t.children, seen + {id});
    return Validated(errs + below.errs, [Topic(id, t.title, below.topics)], below.seen);
  }

  // ----- what an accepted tree is like

  function AllIds(topics: seq<Topic>): seq<string> {
    if topics == [] then [] else [topics[0].id] + AllIds(topics[0].children) + AllIds(topics[1..])
  }

  // Every topic has an id without a slash and both titles.
  predicate Named(topics: seq<Topic>) {
    topics == [] || (
      && topics[0].id != "" && '/' !in topics[0].id
      && topics[0].title.zh != "" && topics[0].title.en != ""
      && Named(topics[0].children) && Named(topics[1..]))
  }

  // The tree with every id replaced by its path.
  function Renamed(parent: string, topics: seq<Topic>): seq<Topic>
    decreases topics
  {
    if topics == [] then []
    else
      var id := PathTo(parent, topics[0].id);
      [Topic(id, topics[0].title, Renamed(id, topics[0].children))] + Renamed(parent, topics[1..])
  }

  // No id occurs twice or was seen before.
  predicate Fresh(ids: seq<string>, seen: set<string>) {
    Distinct(ids) && forall id | id in ids :: id !in seen
  }

  function Set(ids: seq<string>): set<string> {
    set id | id in ids
  }

  lemma FreshSplits(id: string, below: seq<string>, rest: seq<string>, seen: set<string>)
    ensures Fresh([id] + below + rest, seen)
       <==> id !in seen && Fresh(below, seen + {id}) && Fresh(rest, seen + {id} + Set(below))
  {
    var all := [id] + below + rest;
    var n := 1 + |below|;
    assert all[0] == id;
    assert forall i | 0 <= i < |below| :: all[i + 1] == below[i];
    assert forall i | 0 <= i < |rest| :: all[n + i] == rest[i];
    if Fresh(all, seen) {
      forall i | 0 <= i < |rest|
        ensures rest[i] !in seen + {id} + Set(below)
      {
        assert all[n + i] == rest[i];
      }
    }
    if id !in seen && Fresh(below, seen + {id}) && Fresh(rest, seen + {id} + Set(below)) {
      FreshJoins(id, below, rest, seen);
    }
  }

  lemma FreshJoins(id: string, below: seq<string>, rest: seq<string>, seen: set<string>)
    requires id !in seen && Fresh(below, seen + {id}) && Fresh(rest, seen + {id} + Set(below))
    ensures Fresh([id] + below + rest, seen)
  {
    var all, n := [id] + below + rest, 1 + |below|;
    assert forall i | 1 <= i < n :: all[i] == below[i - 1] && below[i - 1] in Set(below);
    assert forall i | n <= i < |all| :: all[i] == rest[i - n];
    forall i, j | 0 <= i < j < |all|
      ensures all[i] != all[j]
    {
      if n <= j {
        assert rest[j - n] !in seen + {id} + Set(below);
      } else {
        assert below[j - 1] !in seen + {id};
      }
    }
  }

  lemma {:induction false} AcceptedIsRenamed(parent: string, topics: seq<Topic>, seen: set<string>)
    requires ValidatedAll(parent, topics, seen).errs == []
    ensures ValidatedAll(parent, topics, seen).topics == Renamed(parent, topics)
    ensures ValidatedAll(parent, topics, seen).seen == seen + Set(AllIds(Renamed(parent, topics)))
    decreases topics
  {
    if topics != [] {
      var t := topics[0];
      var id := PathTo(parent, t.id);
      AcceptedIsRenamed(id, t.children, seen + {id});
      AcceptedIsRenamed(parent, topics[1..], ValidatedOne(parent, t, seen).seen);
    }
  }

  lemma {:induction false} AcceptedIsFresh(parent: string, topics: seq<Topic>, seen: set<string>)
    ensures ValidatedAll(parent, topics, seen).errs == [] <==> Named(topics) && Fresh(AllIds(Renamed(parent, topics)), seen)
    decreases topics
  {
    if topics != [] {
      var t := topics[0];
      var id := PathTo(parent, t.id);
      if t.id != "" && '/' !in t.id {
        var below := ValidatedAll(id, t.children, seen + {id});
        AcceptedIsFresh(id, t.children, seen + {id});
        AcceptedIsFresh(parent, topics[1..], below.seen);
        FreshSplits(id, AllIds(Renamed(id, t.children)), AllIds(Renamed(parent, topics[1..])), seen);
        if below.errs == [] { AcceptedIsRenamed(id, t.children, seen + {id}); }
      }
    }
  }

  // Validation accepts a tree exactly when every topic is named and no path occurs twice;
  // it then leaves the tree with ids as paths.
  lemma AcceptedIff(parent: string, topics: seq<Topic>, seen: set<string>)
    ensures var v := ValidatedAll(parent, topics, seen);
            && (v.errs == [] <==> Named(topics) && Fresh(AllIds(Renamed(parent, topics)), seen))
            && (v.errs == [] ==> v.topics == Renamed(parent, topics) && v.seen == seen + Set(AllIds(v.topics)))
  {
    AcceptedIsFresh(parent, topics, seen);
    if ValidatedAll(parent, topics, seen).errs == [] { AcceptedIsRenamed(parent, topics, seen); }
  }

  // ----- finding

  // Find, in preorder.
  function Find(topics: seq<Topic>, id: string): Option<Topic> {
    if topics == [] then None
    else if topics[0].id == id then Some(topics[0])
    else
      var below := Find(topics[0].children, id);
      if below.Some? then below else Find(topics[1..], id)
  }

  // A topic of the tree, at any depth.
  predicate IsIn(t: Topic, topics: seq<Topic>) {
    topics != [] && (t == topics[0] || IsIn(t, topics[0].children) || IsIn(t, topics[1..]))
  }

  lemma {:induction false} FindFinds(topics: seq<Topic>, id: string)
    ensures Find(topics, id).Some? <==> id in AllIds(topics)
    ensures Find(topics, id).Some? ==> Find(topics, id).value.id == id && IsIn(Find(topics, id).value, topics)
  {
    if topics != [] {
      FindFinds(topics[0].children, id);
      FindFinds(topics[1..], id);
    }
  }

  // ----- counting

  predicate InTopic(topic: string, root: string) {
    topic == root || root + "/" <= topic
  }

  function Hit(topic: string, root: string): nat {
    if InTopic(topic, root) then 1 else 0
  }

  function Count(root: string, topics: seq<string>): nat {
    if topics == [] then 0 else Count(root, topics[..|topics| - 1]) + Hit(topics[|topics| - 1], root)
  }

  method CountInTopic(root: string, topics: seq<string>) returns (count: nat)
    ensures count == Count(root, topics)
  {
    count := 0;
    for i := 0 to |topics|
      invariant count == Count(root, topics[..i])
    {
      assert topics[..i + 1][..i] == topics[..i];
      if InTopic(topics[i], root) {
        count := count + 1;
      }
    }
    assert topics[..|topics|] == topics;
  }

  datatype TopicNode = TopicNode(id: string, labs: nat, docs: nat, children: seq<TopicNode>)

  function Nodes(topics: seq<Topic>, labs: seq<string>, docs: seq<string>): seq<TopicNode>
    decreases topics
  {
    if topics == [] then []
    else
      var n := |topics| - 1;
      var t := topics[n];
      Nodes(topics[..n], labs, docs) + [TopicNode(t.id, Count(t.id, labs), Count(t.id, docs), Nodes(t.children, labs, docs))]
  }

  method TopicNodesOf(topics: seq<Topic>, labs: seq<string>, docs: seq<string>) returns (nodes: seq<TopicNode>)
    ensures nodes == Nodes(topics, labs, docs)
    decreases topics
  {
    nodes := [];
    for i := 0 to |topics|
      invariant nodes == Nodes(topics[..i], labs, docs)
    {
      assert topics[..i + 1][..i] == topics[..i];
      var ofLabs := CountInTopic(topics[i].id, labs);
      var ofDocs := CountInTopic(topics[i].id, docs);
      var children := TopicNodesOf(topics[i].children, labs, docs);
      nodes := nodes + [TopicNode(topics[i].id, ofLabs, ofDocs, children)];
    }
    assert topics[..|topics|] == topics;
  }

  // totalLabs of web/src/lib/topicTree.ts.
  function TotalLabs(nodes: seq<TopicNode>): nat {
    if nodes == [] then 0 else TotalLabs(nodes[..|nodes| - 1]) + nodes[|nodes| - 1].labs
  }

  // ----- paths

  // Ids extend the prefix by a name without a slash; siblings differ, at every depth.
  ghost predicate Pathed(prefix: string, topics: seq<Topic>)
    decreases topics
  {
    && (forall i | 0 <= i < |topics| :: Under(prefix, topics[i]))
    && (forall i, j | 0 <= i < j < |topics| :: topics[i].id != topics[j].id)
  }

  ghost predicate Under(prefix: string, t: Topic)
    decreases t
  {
    && prefix <= t.id && |prefix| < |t.id| && '/' !in t.id[|prefix|..]
    && Pathed(t.id + "/", t.children)
  }

  function PrefixOf(parent: string): string {
    if parent == "" then "" else parent + "/"
  }

  lemma {:induction false} TopIdsAreIds(topics: seq<Topic>, i: nat)
    requires i < |topics|
    ensures topics[i].id in AllIds(topics) && forall id | id in AllIds(topics[i].children) :: id in AllIds(topics)
  {
    if i > 0 {
      TopIdsAreIds(topics[1..], i - 1);
    }
  }

  lemma DistinctSplits(id: string, below: seq<string>, rest: seq<string>)
    requires Distinct([id] + below + rest)
    ensures Distinct(below) && Distinct(rest) && id !in rest
  {
    FreshSplits(id, below, rest, {});
    assert Fresh(rest, {} + {id} + Set(below));
  }

  lemma PathExtends(parent: string, name: string)
    requires name != "" && '/' !in name
    ensures var id := PathTo(parent, name);
            PrefixOf(parent) <= id && |PrefixOf(parent)| < |id| && id[|PrefixOf(parent)|..] == name && PrefixOf(id) == id + "/"
  {
    var id := PathTo(parent, name);
    assert id == PrefixOf(parent) + name;
  }

  // The paths of an accepted tree.
  lemma {:induction false} RenamedIsPathed(parent: string, topics: seq<Topic>)
    requires Named(topics) && Distinct(AllIds(Renamed(parent, topics)))
    ensures Pathed(PrefixOf(parent), Renamed(parent, topics))
    decreases topics
  {
    if topics != [] {
      var t := topics[0];
      var id := PathTo(parent, t.id);
      var below, rest := Renamed(id, t.children), Renamed(parent, topics[1..]);
      DistinctSplits(id, AllIds(below), AllIds(rest));
      PathExtends(parent, t.id);
      RenamedIsPathed(id, t.children);
      RenamedIsPathed(parent, topics[1..]);
      NotOnTop(id, rest);
      PathedCons(PrefixOf(parent), Topic(id, t.title, below), rest);
    }
  }

  lemma NotOnTop(id: string, topics: seq<Topic>)
    requires id !in AllIds(topics)
    ensures forall i | 0 <= i < |topics| :: topics[i].id != id
  {
    forall i | 0 <= i < |topics|
      ensures topics[i].id != id
    {
      TopIdsAreIds(topics, i);
    }
  }

  lemma PathedCons(prefix: string, first: Topic, rest: seq<Topic>)
    requires Under(prefix, first) && Pathed(prefix, rest)
    requires forall i | 0 <= i < |rest| :: rest[i].id != first.id
    ensures Pathed(prefix, [first] + rest)
  {
    var all := [first] + rest;
    forall i | 0 <= i < |all|
      ensures Under(prefix, all[i])
    {
      if i > 0 { assert Under(prefix, rest[i - 1]); }
    }
    forall i, j | 0 <= i < j < |all|
      ensures all[i].id != all[j].id
    {
      if i > 0 { assert all[i] == rest[i - 1]; }
    }
  }

  // ----- which topics a path counts for

  lemma SiblingsApart(prefix: string, topics: seq<Topic>, i: nat, j: nat, x: string)
    requires i < |topics| && j < |topics| && Pathed(prefix, topics)
    requires InTopic(x, topics[i].id) && InTopic(x, topics[j].id)
    ensures i == j
  {
    NamesApart(prefix, topics[i].id, topics[j].id, x);
    NamesApart(prefix, topics[j].id, topics[i].id, x);
  }

  lemma NamesApart(prefix: string, a: string, b: string, x: string)
    requires prefix <= a && prefix <= b && |prefix| < |a| && |prefix| < |b|
    requires '/' !in a[|prefix|..] && '/' !in b[|prefix|..]
    requires InTopic(x, a) && InTopic(x, b)
    ensures |a| >= |b| && (|a| == |b| ==> a == b)
  {
    assert a <= x && b <= x && (x != a ==> x[|a|] == (a + "/")[|a|]);
    forall k | |prefix| <= k < |b|
      ensures b[k] != '/'
    {
      assert b[|prefix|..][k - |prefix|] == b[k];
    }
  }

  lemma {:induction false} InTheTree(prefix: string, topics: seq<Topic>, x: string) returns (i: nat)
    requires Pathed(prefix, topics) && x in AllIds(topics)
    ensures i < |topics| && InTopic(x, topics[i].id) && (x == topics[i].id || x in AllIds(topics[i].children)) && prefix <= x
    decreases topics
  {
    if x == topics[0].id {
      i := 0;
    } else if x in AllIds(topics[0].children) {
      i := 0;
      var _ := InTheTree(topics[0].id + "/", topics[0].children, x);
    } else {
      PathedRest(prefix, topics);
      i := InTheTree(prefix, topics[1..], x);
      i := i + 1;
    }
  }

  lemma PathedRest(prefix: string, topics: seq<Topic>)
    requires topics != [] && Pathed(prefix, topics)
    ensures Pathed(prefix, topics[1..])
  {
    var rest := topics[1..];
    assert forall i | 0 <= i < |rest| :: rest[i] == topics[i + 1];
  }

  // A path under one of these topics is that topic's or one below it.
  ghost predicate Owns(topics: seq<Topic>, x: string) {
    forall i | 0 <= i < |topics| && InTopic(x, topics[i].id) :: x == topics[i].id || x in AllIds(topics[i].children)
  }

  lemma OwnsIds(prefix: string, topics: seq<Topic>, x: string)
    requires Pathed(prefix, topics) && x in AllIds(topics)
    ensures Owns(topics, x)
  {
    var i := InTheTree(prefix, topics, x);
    forall j | 0 <= j < |topics| && InTopic(x, topics[j].id)
      ensures x == topics[j].id || x in AllIds(topics[j].children)
    {
      SiblingsApart(prefix, topics, i, j, x);
    }
  }

  lemma InParent(x: string, child: string, root: string)
    requires InTopic(x, child) && root + "/" <= child
    ensures InTopic(x, root) && x != root
  {
  }

  lemma AtTop(prefix: string, topics: seq<Topic>, i: nat)
    requires i < |topics| && Pathed(prefix, topics)
    ensures prefix <= topics[i].id
  {
    assert Under(prefix, topics[i]);
  }

  lemma OwnsBelow(prefix: string, topics: seq<Topic>, i: nat, x: string)
    requires i < |topics| && Pathed(prefix, topics) && Owns(topics, x)
    ensures Owns(topics[i].children, x)
  {
    var t := topics[i];
    assert Under(prefix, t);
    if x in AllIds(t.children) {
      OwnsIds(t.id + "/", t.children, x);
    } else {
      forall j | 0 <= j < |t.children|
        ensures !InTopic(x, t.children[j].id)
      {
        AtTop(t.id + "/", t.children, j);
        if InTopic(x, t.children[j].id) { InParent(x, t.children[j].id, t.id); }
      }
    }
  }

  function Hits(topics: seq<Topic>, x: string): nat {
    if topics == [] then 0 else Hits(topics[..|topics| - 1], x) + Hit(x, topics[|topics| - 1].id)
  }

  // When at most topic i is hit.
  lemma {:induction false} HitsAt(topics: seq<Topic>, x: string, i: nat)
    requires forall k | 0 <= k < |topics| && k != i :: !InTopic(x, topics[k].id)
    ensures Hits(topics, x) == if i < |topics| then Hit(x, topics[i].id) else 0
  {
    if topics != [] {
      HitsAt(topics[..|topics| - 1], x, i);
    }
  }

  lemma HitsOne(prefix: string, topics: seq<Topic>, x: string)
    requires Pathed(prefix, topics) && x in AllIds(topics)
    ensures Hits(topics, x) == 1
  {
    var i := InTheTree(prefix, topics, x);
    forall k | 0 <= k < |topics| && k != i
      ensures !InTopic(x, topics[k].id)
    {
      if InTopic(x, topics[k].id) { SiblingsApart(prefix, topics, i, k, x); }
    }
    HitsAt(topics, x, i);
  }

  // A path counted for a topic is the topic's own or counts for exactly one child.
  lemma HitSplits(t: Topic, x: string)
    requires Pathed(t.id + "/", t.children) && Owns([t], x)
    ensures Hit(x, t.id) == (if x == t.id then 1 else 0) + Hits(t.children, x)
  {
    if x in AllIds(t.children) {
      var i := InTheTree(t.id + "/", t.children, x);
      InParent(x, t.children[i].id, t.id);
      HitsOne(t.id + "/", t.children, x);
    } else {
      assert InTopic(x, [t][0].id) ==> x == t.id;
      forall k | 0 <= k < |t.children|
        ensures !InTopic(x, t.children[k].id)
      {
        if InTopic(x, t.children[k].id) { InParent(x, t.children[k].id, t.id); }
      }
      HitsAt(t.children, x, |t.children|);
    }
  }

  // ----- the counts of a whole tree

  // Labs filed directly on a topic.
  function Direct(id: string, labs: seq<string>): nat {
    multiset(labs)[id]
  }

  function TotalCount(topics: seq<Topic>, labs: seq<string>): nat {
    if topics == [] then 0 else TotalCount(topics[..|topics| - 1], labs) + Count(topics[|topics| - 1].id, labs)
  }

  lemma {:induction false} NodeCount(topics: seq<Topic>, labs: seq<string>, docs: seq<string>)
    ensures |Nodes(topics, labs, docs)| == |topics|
    decreases |topics|
  {
    if topics != [] {
      NodeCount(topics[..|topics| - 1], labs, docs);
    }
  }

  lemma {:induction false} NodeAt(topics: seq<Topic>, labs: seq<string>, docs: seq<string>, i: nat)
    requires i < |topics|
    ensures |Nodes(topics, labs, docs)| == |topics|
    ensures var t := topics[i];
            Nodes(topics, labs, docs)[i] == TopicNode(t.id, Count(t.id, labs), Count(t.id, docs), Nodes(t.children, labs, docs))
    decreases |topics|
  {
    var n := |topics| - 1;
    NodeCount(topics[..n], labs, docs);
    if i < n {
      NodeAt(topics[..n], labs, docs, i);
    }
  }

  lemma {:induction false} TotalOfNodes(topics: seq<Topic>, labs: seq<string>, docs: seq<string>)
    ensures TotalLabs(Nodes(topics, labs, docs)) == TotalCount(topics, labs)
    decreases |topics|
  {
    if topics != [] {
      var n := |topics| - 1;
      TotalOfNodes(topics[..n], labs, docs);
      NodeCount(topics[..n], labs, docs);
      assert Nodes(topics, labs, docs)[..n] == Nodes(topics[..n], labs, docs);
    }
  }

  lemma {:induction false} TotalNext(topics: seq<Topic>, labs: seq<string>)
    requires labs != []
    ensures TotalCount(topics, labs) == TotalCount(topics, labs[..|labs| - 1]) + Hits(topics, labs[|labs| - 1])
  {
    if topics != [] {
      TotalNext(topics[..|topics| - 1], labs);
    }
  }

  lemma {:induction false} TotalOfNone(topics: seq<Topic>)
    ensures TotalCount(topics, []) == 0
  {
    if topics != [] {
      TotalOfNone(topics[..|topics| - 1]);
    }
  }

  lemma {:induction false} CountSplits(t: Topic, labs: seq<string>)
    requires Pathed(t.id + "/", t.children) && forall x | x in labs :: Owns([t], x)
    ensures Count(t.id, labs) == Direct(t.id, labs) + TotalCount(t.children, labs)
  {
    if labs == [] {
      TotalOfNone(t.children);
    } else {
      var n := |labs| - 1;
      CountSplits(t, labs[..n]);
      assert labs[n] in labs;
      HitSplits(t, labs[n]);
      TotalNext(t.children, labs);
      assert labs == labs[..n] + [labs[n]];
    }
  }

  // Every node shows the labs filed directly on it plus those its children show.
  ghost predicate Counted(nodes: seq<TopicNode>, labs: seq<string>) {
    forall i | 0 <= i < |nodes| ::
      nodes[i].labs == Direct(nodes[i].id, labs) + TotalLabs(nodes[i].children) && Counted(nodes[i].children, labs)
  }

  lemma {:induction false} NodesAreCounted(prefix: string, topics: seq<Topic>, labs: seq<string>, docs: seq<string>)
    requires Pathed(prefix, topics) && forall x | x in labs :: Owns(topics, x)
    ensures Counted(Nodes(topics, labs, docs), labs)
    decreases topics
  {
    NodeCount(topics, labs, docs);
    forall i | 0 <= i < |topics|
      ensures var node := Nodes(topics, labs, docs)[i];
              node.labs == Direct(node.id, labs) + TotalLabs(node.children) && Counted(node.children, labs)
    {
      var t := topics[i];
      forall x | x in labs
        ensures Owns([t], x) && Owns(t.children, x)
      {
        assert Owns(topics, x);
        OwnsBelow(prefix, topics, i, x);
      }
      NodeAt(topics, labs, docs, i);
      CountSplits(t, labs);
      TotalOfNodes(t.children, labs, docs);
      NodesAreCounted(t.id + "/", t.children, labs, docs);
    }
  }

  lemma {:induction false} RootsCountAll(prefix: string, topics: seq<Topic>, labs: seq<string>)
    requires Pathed(prefix, topics) && forall x | x in labs :: x in AllIds(topics)
    ensures TotalCount(topics, labs) == |labs|
  {
    if labs == [] {
      TotalOfNone(topics);
    } else {
      var n := |labs| - 1;
      RootsCountAll(prefix, topics, labs[..n]);
      assert labs[n] in labs;
      HitsOne(prefix, topics, labs[n]);
      TotalNext(topics, labs);
    }
  }

  // For a tree that validation accepts and labs whose topics it holds: each node's count
  // is its own labs plus its children's counts, and the roots together show every lab once.
  lemma CountsAddUp(topics: seq<Topic>, labs: seq<string>, docs: seq<string>)
    requires ValidatedAll("", topics, {}).errs == []
    requires forall x | x in labs :: Find(ValidatedAll("", topics, {}).topics, x).Some?
    ensures var nodes := Nodes(ValidatedAll("", topics, {}).topics, labs, docs);
            Counted(nodes, labs) && TotalLabs(nodes) == |labs|
  {
    var tree := Renamed("", topics);
    AcceptedIff("", topics, {});
    RenamedIsPathed("", topics);
    forall x | x in labs
      ensures x in AllIds(tree) && Owns(tree, x)
    {
      FindFinds(tree, x);
      OwnsIds("", tree, x);
    }
    NodesAreCounted("", tree, labs, docs);
    RootsCountAll("", tree, labs);
    TotalOfNodes(tree, labs, docs);
  }
}
