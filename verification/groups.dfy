/** Expansion of the action groups of a rotation: every reference to a group runs a copy of its own.

    A reference stands for any group reference found in an entry, inside sequences included; only its
    group name matters here.  Names of groups that do not exist are allowed. */
module Groups {

  const NONE: int := -1

  datatype GroupConfig = GroupConfig(name: string, refs: seq<string>)

  /** A parsed reference: whether the expansion has counted it, and the copy it is bound to. */
  datatype Reference = Reference(name: string, matched: bool, group: int)

  /** A parsed copy of a group and the references among its actions. */
  datatype Copy = Copy(name: string, config: nat, refs: seq<nat>, referencedBy: int)

  /** The first group of the configuration with a name, or NONE. */
  function First(configs: seq<GroupConfig>, name: string): (f: int)
    ensures f == NONE ==> forall i :: 0 <= i < |configs| ==> configs[i].name != name
    ensures f != NONE ==> 0 <= f < |configs| && configs[f].name == name && forall i :: 0 <= i < f ==> configs[i].name != name
  {
    FirstFrom(configs, name, 0)
  }

  function FirstFrom(configs: seq<GroupConfig>, name: string, i: nat): (f: int)
    requires i <= |configs| && forall j :: 0 <= j < i ==> configs[j].name != name
    ensures f == NONE ==> forall j :: 0 <= j < |configs| ==> configs[j].name != name
    ensures f != NONE ==> i <= f < |configs| && configs[f].name == name && forall j :: 0 <= j < f ==> configs[j].name != name
    decreases |configs| - i
  {
    if i == |configs| then NONE else if configs[i].name == name then i else FirstFrom(configs, name, i + 1)
  }

  predicate Exists(configs: seq<GroupConfig>, name: string) {
    First(configs, name) != NONE
  }

  /** No group references itself, directly or through others: names can be ranked so that every group
      references lower names only. */
  ghost predicate Acyclic(configs: seq<GroupConfig>, rank: string -> nat) {
    forall c, i :: 0 <= c < |configs| && 0 <= i < |configs[c].refs| ==> rank(configs[c].refs[i]) < rank(configs[c].name)
  }

  /** The copies one copy of group c brings about, itself included. */
  ghost function Weight(configs: seq<GroupConfig>, rank: string -> nat, c: nat): nat
    requires Acyclic(configs, rank) && c < |configs|
    decreases rank(configs[c].name), |configs[c].refs| + 1
  {
    1 + RefsWeight(configs, rank, c, |configs[c].refs|)
  }

  ghost function RefsWeight(configs: seq<GroupConfig>, rank: string -> nat, c: nat, k: nat): nat
    requires Acyclic(configs, rank) && c < |configs| && k <= |configs[c].refs|
    decreases rank(configs[c].name), k
  {
    if k == 0 then 0 else RefsWeight(configs, rank, c, k - 1) + NameWeight(configs, rank, c, k - 1)
  }

  ghost function NameWeight(configs: seq<GroupConfig>, rank: string -> nat, c: nat, i: nat): nat
    requires Acyclic(configs, rank) && c < |configs| && i < |configs[c].refs|
    decreases rank(configs[c].name), i
  {
    var f := First(configs, configs[c].refs[i]);
    if f == NONE then 0 else Weight(configs, rank, f)
  }

  ghost function QueueWeight(configs: seq<GroupConfig>, rank: string -> nat, queue: seq<nat>): nat
    requires Acyclic(configs, rank) && forall i :: 0 <= i < |queue| ==> queue[i] < |configs|
  {
    if queue == [] then 0 else QueueWeight(configs, rank, queue[..|queue| - 1]) + Weight(configs, rank, queue[|queue| - 1])
  }

  ghost function UnmatchedWeight(configs: seq<GroupConfig>, rank: string -> nat, refs: seq<Reference>): nat
    requires Acyclic(configs, rank)
  {
    if refs == [] then 0
    else
      var last := refs[|refs| - 1];
      var f := First(configs, last.name);
      UnmatchedWeight(configs, rank, refs[..|refs| - 1]) + if last.matched || f == NONE then 0 else Weight(configs, rank, f)
  }

  lemma {:induction false} QueueWeightHead(configs: seq<GroupConfig>, rank: string -> nat, queue: seq<nat>)
    requires Acyclic(configs, rank) && queue != [] && forall i :: 0 <= i < |queue| ==> queue[i] < |configs|
    ensures QueueWeight(configs, rank, queue) == Weight(configs, rank, queue[0]) + QueueWeight(configs, rank, queue[1..])
  {
    var init := queue[..|queue| - 1];
    if init == [] {
      assert queue[1..] == [];
    } else {
      QueueWeightHead(configs, rank, init);
      assert queue[1..][..|queue| - 2] == init[1..];
    }
  }

  lemma QueueWeightAppend(configs: seq<GroupConfig>, rank: string -> nat, queue: seq<nat>, c: nat)
    requires Acyclic(configs, rank) && c < |configs| && forall i :: 0 <= i < |queue| ==> queue[i] < |configs|
    ensures QueueWeight(configs, rank, queue + [c]) == QueueWeight(configs, rank, queue) + Weight(configs, rank, c)
  {
    assert (queue + [c])[..|queue|] == queue;
  }

  lemma {:induction false} MatchingLightens(configs: seq<GroupConfig>, rank: string -> nat, refs: seq<Reference>, r: nat)
    requires Acyclic(configs, rank) && r < |refs| && !refs[r].matched && Exists(configs, refs[r].name)
    ensures UnmatchedWeight(configs, rank, refs) ==
            UnmatchedWeight(configs, rank, refs[r := refs[r].(matched := true)]) + Weight(configs, rank, First(configs, refs[r].name))
  {
    var after := refs[r := refs[r].(matched := true)];
    var n := |refs| - 1;
    if r == n {
      assert after[..n] == refs[..n];
    } else {
      MatchingLightens(configs, rank, refs[..n], r);
      assert after[..n] == refs[..n][r := refs[r].(matched := true)];
    }
  }

  // ---------------------------------------------------------------- the state of an expansion

  /** Every copy is of its queued group, with its own references. */
  ghost predicate CopiesOk(configs: seq<GroupConfig>, refs: seq<Reference>, queue: seq<nat>, groups: seq<Copy>, listed: nat) {
    && |groups| <= |queue|
    && (forall i :: 0 <= i < |queue| ==> queue[i] < |configs|)
    && |configs| <= |queue| && (forall i :: 0 <= i < |configs| ==> queue[i] == i)
    && (forall g :: 0 <= g < |groups| ==>
          && groups[g].config == queue[g] && groups[g].name == configs[queue[g]].name
          && |groups[g].refs| == |configs[queue[g]].refs|)
    && (forall g, j :: 0 <= g < |groups| && 0 <= j < |groups[g].refs| ==>
          && listed <= groups[g].refs[j] < |refs|
          && refs[groups[g].refs[j]].name == configs[queue[g]].refs[j])
  }

  /** home[r] is the copy reserved for a matched reference: a copy of the group it names, reserved for
      it alone, and later in the queue than the copy that holds the reference. */
  ghost predicate HomesOk(configs: seq<GroupConfig>, refs: seq<Reference>, queue: seq<nat>, groups: seq<Copy>, home: seq<int>, listed: nat, done: nat)
    requires CopiesOk(configs, refs, queue, groups, listed)
  {
    && |home| == |refs| && listed <= |refs|
    && (forall r :: 0 <= r < |refs| ==> if refs[r].matched then 0 <= home[r] < |queue| && queue[home[r]] == First(configs, refs[r].name) else home[r] == NONE)
    && (forall r, s :: 0 <= r < s < |refs| && refs[r].matched && refs[s].matched ==> home[r] != home[s])
    && (forall g, j :: 0 <= g < |groups| && 0 <= j < |groups[g].refs| && refs[groups[g].refs[j]].matched ==> g < home[groups[g].refs[j]])
    // an original is reserved when its turn comes, not before
    && (forall r :: 0 <= r < |refs| && refs[r].matched && home[r] < |configs| ==> home[r] < |groups|)
    // references in the lists have been matched once the group they name has had its turn
    && (forall r :: 0 <= r < listed && Exists(configs, refs[r].name) && First(configs, refs[r].name) < done ==> refs[r].matched)
  }

  /** Before finalization only the reference matched last in the lists marks the original it matched. */
  ghost predicate MarksOk(configs: seq<GroupConfig>, refs: seq<Reference>, groups: seq<Copy>) {
    && (forall r :: 0 <= r < |refs| ==> refs[r].group == NONE)
    && (forall g :: 0 <= g < |groups| && groups[g].referencedBy != NONE ==>
          && 0 <= groups[g].referencedBy < |refs|
          && refs[groups[g].referencedBy].name == groups[g].name && g == First(configs, groups[g].name))
  }

  /** Matching references changes nothing but their marks. */
  ghost predicate Advanced(refs: seq<Reference>, refs': seq<Reference>) {
    |refs'| == |refs| && forall r :: 0 <= r < |refs| ==> refs'[r].name == refs[r].name && (refs[r].matched ==> refs'[r].matched)
  }

  ghost predicate SameMembers(groups: seq<Copy>, groups': seq<Copy>) {
    |groups'| == |groups| && forall g :: 0 <= g < |groups| ==> groups'[g] == groups[g].(referencedBy := groups'[g].referencedBy)
  }

  ghost predicate NumberedFrom(members: seq<nat>, base: nat) {
    forall j :: 0 <= j < |members| ==> members[j] == base + j
  }

  /** No reference has the g-th original reserved, nor a later one. */
  ghost predicate Unclaimed(refs: seq<Reference>, home: seq<int>, originals: nat, g: nat) {
    |home| == |refs| && forall s :: 0 <= s < |refs| && refs[s].matched && home[s] < originals ==> home[s] < g
  }

  function Fresh(names: seq<string>): (refs: seq<Reference>)
    ensures |refs| == |names| && forall i :: 0 <= i < |names| ==> refs[i] == Reference(names[i], false, NONE)
  {
    seq(|names|, i requires 0 <= i < |names| => Reference(names[i], false, NONE))
  }

  function FreshCopy(configs: seq<GroupConfig>, c: nat, base: nat): (copy: Copy)
    requires c < |configs|
    ensures copy.name == configs[c].name && copy.config == c && copy.referencedBy == NONE && |copy.refs| == |configs[c].refs|
    ensures forall j :: 0 <= j < |copy.refs| ==> copy.refs[j] == base + j
  {
    Copy(configs[c].name, c, seq(|configs[c].refs|, i => base + i), NONE)
  }

  lemma ParseCopies(configs: seq<GroupConfig>, refs: seq<Reference>, queue: seq<nat>, groups: seq<Copy>, listed: nat)
    requires listed <= |refs| && |groups| < |queue| && CopiesOk(configs, refs, queue, groups, listed)
    ensures queue[|groups|] < |configs| && forall i :: 0 <= i < |queue| ==> queue[i] < |configs|
    ensures CopiesOk(configs, refs + Fresh(configs[queue[|groups|]].refs), queue, groups + [FreshCopy(configs, queue[|groups|], |refs|)], listed)
  {
    var c := queue[|groups|];
    var refs', groups' := refs + Fresh(configs[c].refs), groups + [FreshCopy(configs, c, |refs|)];
    forall g, j | 0 <= g < |groups'| && 0 <= j < |groups'[g].refs|
      ensures listed <= groups'[g].refs[j] < |refs'| && refs'[groups'[g].refs[j]].name == configs[queue[g]].refs[j]
    {
      if g < |groups| {
        assert groups'[g] == groups[g];
      }
    }
  }

  lemma ParseHomes(configs: seq<GroupConfig>, refs: seq<Reference>, queue: seq<nat>, groups: seq<Copy>, home: seq<int>, listed: nat,
                   parsed: seq<Reference>, copy: Copy, homes: seq<int>)
    requires CopiesOk(configs, refs, queue, groups, listed) && HomesOk(configs, refs, queue, groups, home, listed, |groups|)
    requires CopiesOk(configs, refs + parsed, queue, groups + [copy], listed)
    requires |homes| == |parsed| && forall i :: 0 <= i < |parsed| ==> !parsed[i].matched && homes[i] == NONE
    requires forall j :: 0 <= j < |copy.refs| ==> |refs| <= copy.refs[j]
    ensures HomesOk(configs, refs + parsed, queue, groups + [copy], home + homes, listed, |groups|)
    ensures Unclaimed(refs + parsed, home + homes, |configs|, |groups|)
  {
    var refs', groups', home' := refs + parsed, groups + [copy], home + homes;
    forall g, j | 0 <= g < |groups'| && 0 <= j < |groups'[g].refs| && refs'[groups'[g].refs[j]].matched
      ensures g < home'[groups'[g].refs[j]]
    {
      assert groups'[g].refs[j] < |refs'|;
      if g < |groups| {
        assert groups'[g] == groups[g] && groups[g].refs[j] < |refs|;
      }
    }
  }

  lemma ParseMembers(configs: seq<GroupConfig>, refs: seq<Reference>, groups: seq<Copy>, listed: nat, parsed: seq<Reference>, copy: Copy)
    requires MarksOk(configs, refs, groups) && copy.referencedBy == NONE && forall i :: 0 <= i < |parsed| ==> parsed[i].group == NONE
    requires MembersMatched(configs, refs, listed, |refs|)
    ensures MarksOk(configs, refs + parsed, groups + [copy])
    ensures MembersMatched(configs, refs + parsed, listed, |refs|)
  {
  }

  /** A reference is matched with a copy appended for it. */
  lemma AppendStep(configs: seq<GroupConfig>, refs: seq<Reference>, queue: seq<nat>, groups: seq<Copy>, home: seq<int>, listed: nat, done: nat, r: nat)
    requires CopiesOk(configs, refs, queue, groups, listed) && HomesOk(configs, refs, queue, groups, home, listed, done)
    requires r < |refs| && !refs[r].matched && Exists(configs, refs[r].name)
    ensures MarksOk(configs, refs, groups) ==> MarksOk(configs, refs[r := refs[r].(matched := true)], groups)
    ensures forall i :: 0 <= i < |queue| ==> queue[i] < |configs|
    ensures |groups| <= |queue| && |home| == |refs|
    ensures var refs', queue' := refs[r := refs[r].(matched := true)], queue + [First(configs, refs[r].name) as nat];
            CopiesOk(configs, refs', queue', groups, listed) && HomesOk(configs, refs', queue', groups, home[r := |queue|], listed, done)
  {
  }

  /** A reference in the lists is matched with the original whose turn it is, which nobody else claims. */
  lemma OriginalStep(configs: seq<GroupConfig>, refs: seq<Reference>, queue: seq<nat>, groups: seq<Copy>, home: seq<int>, listed: nat, done: nat, r: nat)
    requires CopiesOk(configs, refs, queue, groups, listed) && HomesOk(configs, refs, queue, groups, home, listed, done)
    requires r < listed && !refs[r].matched && First(configs, refs[r].name) == |groups| - 1 && 0 < |groups| <= |configs|
    requires Unclaimed(refs, home, |configs|, |groups| - 1)
    ensures var refs' := refs[r := refs[r].(matched := true)];
            CopiesOk(configs, refs', queue, groups, listed) && HomesOk(configs, refs', queue, groups, home[r := |groups| - 1], listed, done)
    ensures MarksOk(configs, refs, groups) ==> MarksOk(configs, refs[r := refs[r].(matched := true)], groups)
  {
  }

  lemma MarkStep(configs: seq<GroupConfig>, refs: seq<Reference>, queue: seq<nat>, groups: seq<Copy>, home: seq<int>, listed: nat, g: nat, r: nat)
    requires g < |groups| && r < |refs| && CopiesOk(configs, refs, queue, groups, listed) && MarksOk(configs, refs, groups)
    requires HomesOk(configs, refs, queue, groups, home, listed, g)
    requires refs[r].name == groups[g].name && g == First(configs, groups[g].name)
    ensures var groups' := groups[g := groups[g].(referencedBy := r)];
            && CopiesOk(configs, refs, queue, groups', listed) && MarksOk(configs, refs, groups')
            && HomesOk(configs, refs, queue, groups', home, listed, g)
  {
  }

  /** Once every reference in the lists to the group has been matched, the group has had its turn. */
  lemma ListedDone(configs: seq<GroupConfig>, refs: seq<Reference>, queue: seq<nat>, groups: seq<Copy>, home: seq<int>, listed: nat)
    requires groups != [] && listed <= |refs| && CopiesOk(configs, refs, queue, groups, listed)
    requires HomesOk(configs, refs, queue, groups, home, listed, |groups| - 1)
    requires forall s :: 0 <= s < listed && refs[s].name == groups[|groups| - 1].name ==> refs[s].matched
    ensures HomesOk(configs, refs, queue, groups, home, listed, |groups|)
  {
  }

  /** What the copies' shape says about one of them. */
  lemma CopyShape(configs: seq<GroupConfig>, refs: seq<Reference>, queue: seq<nat>, groups: seq<Copy>, listed: nat, g: nat)
    requires CopiesOk(configs, refs, queue, groups, listed) && g < |groups|
    ensures groups[g].config < |configs| && |groups[g].refs| == |configs[groups[g].config].refs| && |groups| <= |queue|
    ensures groups[g].name == configs[groups[g].config].name
    ensures forall j :: 0 <= j < |groups[g].refs| ==>
              listed <= groups[g].refs[j] < |refs| && refs[groups[g].refs[j]].name == configs[groups[g].config].refs[j]
  {
  }

  /** The first queued copy with a name is of the first group with that name. */
  lemma FirstQueued(configs: seq<GroupConfig>, refs: seq<Reference>, queue: seq<nat>, groups: seq<Copy>, listed: nat, k: nat, name: string)
    requires CopiesOk(configs, refs, queue, groups, listed)
    ensures forall i :: 0 <= i < |queue| ==> queue[i] < |configs|
    ensures k < |queue| && configs[queue[k]].name == name && (forall i :: 0 <= i < k ==> configs[queue[i]].name != name) ==>
              First(configs, name) == queue[k]
    ensures |queue| <= k && (forall i :: 0 <= i < |queue| ==> configs[queue[i]].name != name) ==> !Exists(configs, name)
  {
    var f := First(configs, name);
    if f != NONE {
      assert queue[f] == f;
    }
  }

  /** An unmatched reference in the lists that names the group being processed names an original whose
      turn it is. */
  lemma ListedNamesOriginal(configs: seq<GroupConfig>, refs: seq<Reference>, queue: seq<nat>, groups: seq<Copy>, home: seq<int>, listed: nat, r: nat)
    requires groups != [] && CopiesOk(configs, refs, queue, groups, listed) && HomesOk(configs, refs, queue, groups, home, listed, |groups| - 1)
    requires r < listed && !refs[r].matched && refs[r].name == groups[|groups| - 1].name
    ensures First(configs, refs[r].name) == queue[|groups| - 1] == |groups| - 1 && |groups| <= |configs|
  {
  }

  /** Of the references parsed with copies, those numbered below upTo that name a group are matched. */
  ghost predicate MembersMatched(configs: seq<GroupConfig>, refs: seq<Reference>, listed: nat, upTo: nat) {
    forall r :: listed <= r < upTo && r < |refs| && Exists(configs, refs[r].name) ==> refs[r].matched
  }

  lemma AllMatched(configs: seq<GroupConfig>, refs: seq<Reference>, queue: seq<nat>, groups: seq<Copy>, home: seq<int>, listed: nat)
    requires listed <= |refs| && CopiesOk(configs, refs, queue, groups, listed) && HomesOk(configs, refs, queue, groups, home, listed, |groups|)
    requires |queue| <= |groups| && MembersMatched(configs, refs, listed, |refs|)
    ensures |groups| == |queue|
    ensures forall r :: 0 <= r < |refs| && Exists(configs, refs[r].name) ==> refs[r].matched
  {
    forall r | 0 <= r < |refs| && Exists(configs, refs[r].name) ensures refs[r].matched {
      assert First(configs, refs[r].name) < |groups|;
    }
  }

  ghost predicate Available(groups: seq<Copy>, g: nat, name: string, r: nat)
    requires g < |groups|
  {
    groups[g].name == name && (groups[g].referencedBy == NONE || groups[g].referencedBy == r)
  }

  /** A copy is marked by one reference that names its group, a reference marks one copy only, copies
      of a group are marked from the front, and a bound reference marks the copy it is bound to. */
  ghost predicate BindingsOk(configs: seq<GroupConfig>, refs: seq<Reference>, groups: seq<Copy>) {
    && (forall g :: 0 <= g < |groups| && groups[g].referencedBy != NONE ==>
          0 <= groups[g].referencedBy < |refs| && refs[groups[g].referencedBy].name == groups[g].name)
    && (forall g, h :: 0 <= g < h < |groups| && groups[g].referencedBy != NONE ==> groups[g].referencedBy != groups[h].referencedBy)
    && (forall g, h :: 0 <= g < h < |groups| && groups[g].name == groups[h].name && groups[h].referencedBy != NONE ==> groups[g].referencedBy != NONE)
    && (forall r :: 0 <= r < |refs| && refs[r].group != NONE ==> 0 <= refs[r].group < |groups| && groups[refs[r].group].referencedBy == r)
  }

  ghost predicate Bound(refs: seq<Reference>, groups: seq<Copy>, r: nat)
    requires r < |refs|
  {
    0 <= refs[r].group < |groups| && groups[refs[r].group].name == refs[r].name && groups[refs[r].group].referencedBy == r
  }

  /** Marks and bindings are never taken back. */
  ghost predicate Kept(refs: seq<Reference>, refs': seq<Reference>, groups: seq<Copy>, groups': seq<Copy>) {
    && |refs'| == |refs| && |groups'| == |groups|
    && (forall r :: 0 <= r < |refs| ==> refs'[r].name == refs[r].name && refs'[r].matched == refs[r].matched && (refs[r].group != NONE ==> refs'[r].group == refs[r].group))
    && (forall g :: 0 <= g < |groups| ==> groups'[g].name == groups[g].name && groups'[g].config == groups[g].config && groups'[g].refs == groups[g].refs
                                          && (groups[g].referencedBy != NONE ==> groups'[g].referencedBy == groups[g].referencedBy))
  }

  lemma MarksAreBindings(configs: seq<GroupConfig>, refs: seq<Reference>, queue: seq<nat>, groups: seq<Copy>, listed: nat)
    requires MarksOk(configs, refs, groups) && CopiesOk(configs, refs, queue, groups, listed)
    ensures BindingsOk(configs, refs, groups)
    ensures forall r :: 0 <= r < |refs| ==> refs[r].group == NONE
  {
  }

  lemma KeptItself(refs: seq<Reference>, groups: seq<Copy>)
    ensures Kept(refs, refs, groups, groups)
  {
  }

  /** The copies of a group, and the references to it. */
  ghost function CopiesOf(groups: seq<Copy>, name: string): set<nat> {
    set g: nat | g < |groups| && groups[g].name == name
  }

  ghost function ReferencesTo(refs: seq<Reference>, name: string): set<nat> {
    set r: nat | r < |refs| && refs[r].name == name
  }

  lemma {:induction false} InjectionFits(from: set<nat>, to: set<nat>, f: nat -> nat)
    requires forall x :: x in from ==> f(x) in to
    requires forall x, y :: x in from && y in from && x != y ==> f(x) != f(y)
    ensures |from| <= |to|
    decreases from
  {
    if from != {} {
      var x :| x in from;
      InjectionFits(from - {x}, to - {f(x)}, f);
    }
  }

  /** A group has at least as many copies as there are references to it, so a reference to it finds a
      copy that nobody else has. */
  lemma CopyAvailable(configs: seq<GroupConfig>, refs: seq<Reference>, queue: seq<nat>, groups: seq<Copy>, home: seq<int>, listed: nat, r: nat)
    requires CopiesOk(configs, refs, queue, groups, listed) && HomesOk(configs, refs, queue, groups, home, listed, |groups|)
    requires |groups| == |queue| && BindingsOk(configs, refs, groups)
    requires forall s :: 0 <= s < |refs| && Exists(configs, refs[s].name) ==> refs[s].matched
    requires r < |refs| && Exists(configs, refs[r].name)
    ensures exists g :: 0 <= g < |groups| && Available(groups, g, refs[r].name, r)
  {
    var name := refs[r].name;
    if forall g :: 0 <= g < |groups| ==> !Available(groups, g, name, r) {
      ReservedFit(configs, refs, queue, groups, home, listed, name);
      MarkedFit(configs, refs, groups, name, r);
      assert false;
    }
  }

  lemma ReservedFit(configs: seq<GroupConfig>, refs: seq<Reference>, queue: seq<nat>, groups: seq<Copy>, home: seq<int>, listed: nat, name: string)
    requires CopiesOk(configs, refs, queue, groups, listed) && HomesOk(configs, refs, queue, groups, home, listed, |groups|)
    requires |groups| == |queue| && Exists(configs, name)
    requires forall s :: 0 <= s < |refs| && refs[s].name == name ==> refs[s].matched
    ensures |ReferencesTo(refs, name)| <= |CopiesOf(groups, name)|
  {
    forall s | s in ReferencesTo(refs, name) ensures 0 <= home[s] && (home[s] as nat) in CopiesOf(groups, name) {
      assert refs[s].matched && groups[home[s]].config == queue[home[s]];
    }
    InjectionFits(ReferencesTo(refs, name), CopiesOf(groups, name), (s: nat) => if s < |home| && 0 <= home[s] then home[s] else 0);
  }

  lemma MarkedFit(configs: seq<GroupConfig>, refs: seq<Reference>, groups: seq<Copy>, name: string, r: nat)
    requires BindingsOk(configs, refs, groups) && r < |refs| && refs[r].name == name
    requires forall g :: 0 <= g < |groups| ==> !Available(groups, g, name, r)
    ensures |CopiesOf(groups, name)| < |ReferencesTo(refs, name)|
  {
    var copies, references := CopiesOf(groups, name), ReferencesTo(refs, name);
    forall g | g in copies ensures 0 <= groups[g].referencedBy && (groups[g].referencedBy as nat) in references - {r} {
      assert !Available(groups, g, name, r);
    }
    InjectionFits(copies, references - {r}, (g: nat) => if g < |groups| && 0 <= groups[g].referencedBy then groups[g].referencedBy else 0);
    assert r in references;
  }

  /** The scan stops at the reference's own copy if it has one, and at an unmarked copy otherwise. */
  lemma ScanFinds(configs: seq<GroupConfig>, refs: seq<Reference>, queue: seq<nat>, groups: seq<Copy>, home: seq<int>, listed: nat, r: nat, g: nat)
    requires CopiesOk(configs, refs, queue, groups, listed) && HomesOk(configs, refs, queue, groups, home, listed, |groups|)
    requires |groups| == |queue| && BindingsOk(configs, refs, groups)
    requires forall s :: 0 <= s < |refs| && Exists(configs, refs[s].name) ==> refs[s].matched
    requires r < |refs| && g <= |groups| && forall h :: 0 <= h < g ==> !Available(groups, h, refs[r].name, r)
    requires g < |groups| ==> Available(groups, g, refs[r].name, r)
    ensures Exists(configs, refs[r].name) <==> g < |groups|
    ensures refs[r].group != NONE ==> g == refs[r].group < |groups|
    ensures g < |groups| ==> forall h :: 0 <= h < g && groups[h].name == refs[r].name ==> groups[h].referencedBy != NONE
    ensures g < |groups| ==> forall h :: 0 <= h < |groups| && h != g ==> groups[h].referencedBy != r
  {
    if Exists(configs, refs[r].name) {
      CopyAvailable(configs, refs, queue, groups, home, listed, r);
    }
    forall h | 0 <= h < |groups| && groups[h].referencedBy == r ensures Available(groups, h, refs[r].name, r) {
    }
    forall h | 0 <= h < g && groups[h].name == refs[r].name ensures groups[h].referencedBy != NONE {
      assert !Available(groups, h, refs[r].name, r);
    }
  }

  lemma BindStep(configs: seq<GroupConfig>, refs: seq<Reference>, queue: seq<nat>, groups: seq<Copy>, home: seq<int>, listed: nat, r: nat, g: nat)
    requires CopiesOk(configs, refs, queue, groups, listed) && HomesOk(configs, refs, queue, groups, home, listed, |groups|)
    requires BindingsOk(configs, refs, groups) && r < |refs| && g < |groups| && Available(groups, g, refs[r].name, r)
    requires refs[r].group != NONE ==> g == refs[r].group
    requires forall h :: 0 <= h < g && groups[h].name == refs[r].name ==> groups[h].referencedBy != NONE
    requires forall h :: 0 <= h < |groups| && h != g ==> groups[h].referencedBy != r
    ensures var refs', groups' := refs[r := refs[r].(group := g)], groups[g := groups[g].(referencedBy := r)];
            && CopiesOk(configs, refs', queue, groups', listed) && HomesOk(configs, refs', queue, groups', home, listed, |groups|)
            && BindingsOk(configs, refs', groups') && Kept(refs, refs', groups, groups')
  {
    BoundStillBindable(configs, refs, queue, groups, home, listed, r, g);
    BoundBindings(configs, refs, groups, r, g);
  }

  lemma BoundStillBindable(configs: seq<GroupConfig>, refs: seq<Reference>, queue: seq<nat>, groups: seq<Copy>, home: seq<int>, listed: nat, r: nat, g: nat)
    requires CopiesOk(configs, refs, queue, groups, listed) && HomesOk(configs, refs, queue, groups, home, listed, |groups|)
    requires r < |refs| && g < |groups|
    ensures var refs', groups' := refs[r := refs[r].(group := g)], groups[g := groups[g].(referencedBy := r)];
            CopiesOk(configs, refs', queue, groups', listed) && HomesOk(configs, refs', queue, groups', home, listed, |groups|)
  {
  }

  lemma BoundBindings(configs: seq<GroupConfig>, refs: seq<Reference>, groups: seq<Copy>, r: nat, g: nat)
    requires BindingsOk(configs, refs, groups) && r < |refs| && g < |groups| && Available(groups, g, refs[r].name, r)
    requires refs[r].group != NONE ==> g == refs[r].group
    requires forall h :: 0 <= h < g && groups[h].name == refs[r].name ==> groups[h].referencedBy != NONE
    requires forall h :: 0 <= h < |groups| && h != g ==> groups[h].referencedBy != r
    ensures var refs', groups' := refs[r := refs[r].(group := g)], groups[g := groups[g].(referencedBy := r)];
            BindingsOk(configs, refs', groups') && Kept(refs, refs', groups, groups')
  {
  }

  lemma KeptTransitive(refs: seq<Reference>, refs': seq<Reference>, refs'': seq<Reference>, groups: seq<Copy>, groups': seq<Copy>, groups'': seq<Copy>)
    requires Kept(refs, refs', groups, groups') && Kept(refs', refs'', groups', groups'')
    ensures Kept(refs, refs'', groups, groups'')
  {
  }

  ghost predicate AllBound(configs: seq<GroupConfig>, refs: seq<Reference>, ids: seq<nat>) {
    forall i :: 0 <= i < |ids| && ids[i] < |refs| && Exists(configs, refs[ids[i]].name) ==> refs[ids[i]].group != NONE
  }

  lemma AllStillBound(configs: seq<GroupConfig>, refs: seq<Reference>, refs': seq<Reference>, groups: seq<Copy>, groups': seq<Copy>, ids: seq<nat>)
    requires AllBound(configs, refs, ids) && Kept(refs, refs', groups, groups')
    ensures AllBound(configs, refs', ids) && |groups'| == |groups|
  {
  }

  lemma MembersKept(configs: seq<GroupConfig>, refs: seq<Reference>, refs': seq<Reference>, queue: seq<nat>, groups: seq<Copy>, groups': seq<Copy>, listed: nat, g: nat)
    requires Kept(refs, refs', groups, groups') && g < |groups'| && CopiesOk(configs, refs', queue, groups', listed)
    ensures |groups| == |groups'| && groups'[g].refs == groups[g].refs
    ensures forall i :: 0 <= i < |groups'[g].refs| ==> groups'[g].refs[i] < |refs'|
  {
  }

  lemma BoundByName(configs: seq<GroupConfig>, refs: seq<Reference>, groups: seq<Copy>, r: nat)
    requires BindingsOk(configs, refs, groups) && r < |refs| && refs[r].group != NONE
    ensures Bound(refs, groups, r)
  {
  }

  lemma ListsBound(configs: seq<GroupConfig>, refs: seq<Reference>, groups: seq<Copy>, first: seq<nat>, last: seq<nat>, prepull: nat, listed: nat)
    requires prepull <= listed <= |refs| && |first| == prepull && |last| == listed - prepull
    requires NumberedFrom(first, 0) && NumberedFrom(last, prepull)
    requires AllBound(configs, refs, first) && AllBound(configs, refs, last) && BindingsOk(configs, refs, groups)
    ensures forall r :: 0 <= r < listed && Exists(configs, refs[r].name) ==> Bound(refs, groups, r)
    ensures forall r, s :: 0 <= r < s < |refs| && refs[r].group != NONE ==> refs[r].group != refs[s].group
  {
    forall r | 0 <= r < listed && Exists(configs, refs[r].name) ensures Bound(refs, groups, r) {
      assert if r < prepull then first[r] == r else last[r - prepull] == r;
      BoundByName(configs, refs, groups, r);
    }
  }

  lemma MembersBound(configs: seq<GroupConfig>, refs: seq<Reference>, refs': seq<Reference>, groups: seq<Copy>, groups': seq<Copy>)
    requires Kept(refs, refs', groups, groups') && BindingsOk(configs, refs', groups')
    requires forall h :: 0 <= h < |groups| ==> AllBound(configs, refs', groups[h].refs)
    ensures forall g, j :: 0 <= g < |groups'| && 0 <= j < |groups'[g].refs| && groups'[g].refs[j] < |refs'| && Exists(configs, refs'[groups'[g].refs[j]].name) ==>
              Bound(refs', groups', groups'[g].refs[j])
  {
    forall g, j | 0 <= g < |groups'| && 0 <= j < |groups'[g].refs| && groups'[g].refs[j] < |refs'| && Exists(configs, refs'[groups'[g].refs[j]].name)
      ensures Bound(refs', groups', groups'[g].refs[j])
    {
      assert AllBound(configs, refs', groups[g].refs);
      BoundByName(configs, refs', groups', groups'[g].refs[j]);
    }
  }

  /** The last copy of a group in a queue, 0 if it has none. */
  ghost function LastCopy(configs: seq<GroupConfig>, queue: seq<nat>, name: string): nat
    requires forall i :: 0 <= i < |queue| ==> queue[i] < |configs|
    ensures LastCopy(configs, queue, name) <= |queue|
    ensures forall i :: 0 <= i < |queue| && configs[queue[i]].name == name ==> i < LastCopy(configs, queue, name)
    ensures 0 < LastCopy(configs, queue, name) ==> configs[queue[LastCopy(configs, queue, name) - 1]].name == name
  {
    if queue == [] then 0
    else if configs[queue[|queue| - 1]].name == name then |queue|
    else LastCopy(configs, queue[..|queue| - 1], name)
  }

  /** In a complete expansion a group's last copy comes before the last copy of any group it
      references. */
  lemma ReferencedLater(configs: seq<GroupConfig>, refs: seq<Reference>, queue: seq<nat>, groups: seq<Copy>, home: seq<int>, listed: nat, c: nat, i: nat)
    requires listed <= |refs| && CopiesOk(configs, refs, queue, groups, listed) && HomesOk(configs, refs, queue, groups, home, listed, |groups|)
    requires |groups| == |queue| && forall r :: 0 <= r < |refs| && Exists(configs, refs[r].name) ==> refs[r].matched
    requires c < |configs| && i < |configs[c].refs| && Exists(configs, configs[c].refs[i])
    requires forall d :: 0 <= d < |configs| && configs[d].name == configs[c].name ==> d == c
    ensures LastCopy(configs, queue, configs[c].name) < LastCopy(configs, queue, configs[c].refs[i])
  {
    var name, own := configs[c].refs[i], configs[c].name;
    assert queue[c] == c;
    var g := LastCopy(configs, queue, own) - 1;
    assert queue[g] == c;
    CopyShape(configs, refs, queue, groups, listed, g);
    var r := groups[g].refs[i];
    assert refs[r].name == name && refs[r].matched && g < home[r];
    assert configs[queue[home[r]]].name == name;
  }

  ghost function RankOf(configs: seq<GroupConfig>, queue: seq<nat>, name: string): nat
    requires forall i :: 0 <= i < |queue| ==> queue[i] < |configs|
  {
    if Exists(configs, name) then |queue| + 1 - LastCopy(configs, queue, name) else 0
  }

  /** The expansion of groups with distinct names can only come to an end if the references among them
      are acyclic: in a complete expansion every copy's references have later copies of their own, so
      the last copies rank the groups. */
  lemma CompleteOnlyIfAcyclic(configs: seq<GroupConfig>, refs: seq<Reference>, queue: seq<nat>, groups: seq<Copy>, home: seq<int>, listed: nat)
    requires listed <= |refs| && CopiesOk(configs, refs, queue, groups, listed) && HomesOk(configs, refs, queue, groups, home, listed, |groups|)
    requires |groups| == |queue| && forall r :: 0 <= r < |refs| && Exists(configs, refs[r].name) ==> refs[r].matched
    requires forall c, d :: 0 <= c < |configs| && 0 <= d < |configs| && configs[c].name == configs[d].name ==> c == d
    ensures exists rank: string -> nat :: Acyclic(configs, rank)
  {
    var last := (name: string) => if Exists(configs, name) && forall i :: 0 <= i < |queue| ==> queue[i] < |configs| then RankOf(configs, queue, name) else 0;
    forall c, i | 0 <= c < |configs| && 0 <= i < |configs[c].refs| ensures last(configs[c].refs[i]) < last(configs[c].name) {
      if Exists(configs, configs[c].refs[i]) {
        ReferencedLater(configs, refs, queue, groups, home, listed, c, i);
      }
    }
    assert Acyclic(configs, last);
  }

  /** How many of the first n references wait for a copy of the group. */
  ghost function Waiting(refs: seq<Reference>, n: nat, name: string): nat
    requires n <= |refs|
  {
    if n == 0 then 0 else Waiting(refs, n - 1, name) + if refs[n - 1].name == name && !refs[n - 1].matched then 1 else 0
  }

  class Expansion {
    const configs: seq<GroupConfig>
    const prepull: nat
    const listed: nat

    var refs: seq<Reference>
    var queue: seq<nat>
    var groups: seq<Copy>
    ghost var home: seq<int>

    ghost predicate OwnMatched(upTo: nat)
      reads this
    {
      MembersMatched(configs, refs, listed, upTo)
    }

    ghost predicate Valid()
      reads this
    {
      && prepull <= listed <= |refs|
      && CopiesOk(configs, refs, queue, groups, listed)
      && HomesOk(configs, refs, queue, groups, home, listed, |groups|)
      && MarksOk(configs, refs, groups)
    }

    constructor (configs: seq<GroupConfig>, prepullRefs: seq<string>, priorityRefs: seq<string>)
      ensures this.configs == configs && prepull == |prepullRefs| && listed == |refs| == |prepullRefs + priorityRefs|
      ensures groups == [] && |queue| == |configs| && Valid() && OwnMatched(|refs|)
      ensures forall r :: 0 <= r < listed ==> refs[r] == Reference((prepullRefs + priorityRefs)[r], false, NONE)
    {
      var names := prepullRefs + priorityRefs;
      this.configs := configs;
      prepull, listed := |prepullRefs|, |names|;
      refs := seq(|names|, i requires 0 <= i < |names| => Reference(names[i], false, NONE));
      queue := seq(|configs|, i => i);
      groups := [];
      home := seq(|names|, i => NONE);
    }

    ghost function Work(rank: string -> nat): nat
      requires Acyclic(configs, rank) && CopiesOk(configs, refs, queue, groups, listed) && listed <= |refs|
      reads this
    {
      QueueWeight(configs, rank, queue[|groups|..]) + UnmatchedWeight(configs, rank, refs[..listed])
    }

    /** Parses the next queued copy: its references come to life unmatched. */
    method Parse(ghost rank: string -> nat)
      requires Acyclic(configs, rank) && Valid() && |groups| < |queue|
      requires OwnMatched(|refs|)
      modifies this`refs, this`groups, this`home
      ensures |groups| == |old(groups)| + 1 && groups[..|old(groups)|] == old(groups)
      ensures groups[|groups| - 1].referencedBy == NONE
      ensures |refs| >= |old(refs)| && refs[..|old(refs)|] == old(refs)
      ensures prepull <= listed <= |refs| && CopiesOk(configs, refs, queue, groups, listed)
      ensures HomesOk(configs, refs, queue, groups, home, listed, |groups| - 1)
      ensures MarksOk(configs, refs, groups)
      ensures groups[|groups| - 1].config < |configs| && Work(rank) + Weight(configs, rank, groups[|groups| - 1].config) == old(Work(rank))
      ensures OwnMatched(|old(refs)|) && |refs| == |old(refs)| + |groups[|groups| - 1].refs|
      ensures NumberedFrom(groups[|groups| - 1].refs, |old(refs)|)
      ensures Unclaimed(refs, home, |configs|, |groups| - 1)
    {
      hide CopiesOk, HomesOk, MarksOk, MembersMatched, Weight, First;
      ghost var refs0 := refs;
      ParseCopies(configs, refs, queue, groups, listed);
      QueueWeightHead(configs, rank, queue[|groups|..]);
      assert queue[|groups|..][1..] == queue[|groups| + 1..];
      var c := queue[|groups|];
      var parsed, copy := Fresh(configs[c].refs), FreshCopy(configs, c, |refs|);
      ghost var homes := seq(|parsed|, i => NONE);
      ParseHomes(configs, refs, queue, groups, home, listed, parsed, copy, homes);
      ParseMembers(configs, refs, groups, listed, parsed, copy);
      refs := refs + parsed;
      home := home + homes;
      groups := groups + [copy];
      assert refs[..listed] == refs0[..listed];
    }

    /** Queues one more copy of the group that reference r names, for r. */
    method AppendCopyFor(r: nat, c: nat, ghost rank: string -> nat, ghost done: nat)
      requires Acyclic(configs, rank) && prepull <= listed <= |refs| && CopiesOk(configs, refs, queue, groups, listed)
      requires HomesOk(configs, refs, queue, groups, home, listed, done) && MarksOk(configs, refs, groups)
      requires r < |refs| && !refs[r].matched && First(configs, refs[r].name) == c
      modifies this`home, this`queue, this`refs
      ensures CopiesOk(configs, refs, queue, groups, listed) && HomesOk(configs, refs, queue, groups, home, listed, done) && MarksOk(configs, refs, groups)
      ensures refs == old(refs)[r := old(refs)[r].(matched := true)] && queue == old(queue) + [c]
      ensures Work(rank) == old(Work(rank)) + if r < listed then 0 else Weight(configs, rank, c)
    {
      hide CopiesOk, HomesOk, MarksOk, Weight;
      AppendStep(configs, refs, queue, groups, home, listed, done, r);
      QueueWeightAppend(configs, rank, queue[|groups|..], c);
      assert (queue + [c])[|groups|..] == queue[|groups|..] + [c];
      if r < listed {
        MatchingLightens(configs, rank, refs[..listed], r);
        assert refs[r := refs[r].(matched := true)][..listed] == refs[..listed][r := refs[r].(matched := true)];
      } else {
        assert refs[r := refs[r].(matched := true)][..listed] == refs[..listed];
      }
      home := home[r := |queue|];
      queue := queue + [c];
      refs := refs[r := refs[r].(matched := true)];
    }

    /** Reference r of the lists uses the original whose turn it is. */
    method ClaimOriginal(r: nat, ghost rank: string -> nat)
      requires Acyclic(configs, rank) && prepull <= listed <= |refs| && CopiesOk(configs, refs, queue, groups, listed)
      requires groups != [] && HomesOk(configs, refs, queue, groups, home, listed, |groups| - 1) && MarksOk(configs, refs, groups)
      requires r < listed && !refs[r].matched && First(configs, refs[r].name) == |groups| - 1 && |groups| <= |configs|
      requires Unclaimed(refs, home, |configs|, |groups| - 1)
      modifies this`home, this`refs
      ensures CopiesOk(configs, refs, queue, groups, listed) && HomesOk(configs, refs, queue, groups, home, listed, |groups| - 1) && MarksOk(configs, refs, groups)
      ensures refs == old(refs)[r := old(refs)[r].(matched := true)]
      ensures Work(rank) <= old(Work(rank))
    {
      hide CopiesOk, HomesOk, MarksOk, Weight;
      OriginalStep(configs, refs, queue, groups, home, listed, |groups| - 1, r);
      MatchingLightens(configs, rank, refs[..listed], r);
      assert refs[r := refs[r].(matched := true)][..listed] == refs[..listed][r := refs[r].(matched := true)];
      home := home[r := |groups| - 1];
      refs := refs[r := refs[r].(matched := true)];
    }

    /** Matches one reference in the lists: with the copy itself if none was found before, otherwise
        with one appended. */
    method MatchOneListed(r: nat, found: bool, ghost rank: string -> nat)
      requires Acyclic(configs, rank) && groups != []
      requires prepull <= listed <= |refs| && CopiesOk(configs, refs, queue, groups, listed)
      requires HomesOk(configs, refs, queue, groups, home, listed, |groups| - 1) && MarksOk(configs, refs, groups)
      requires r < listed && !refs[r].matched && refs[r].name == groups[|groups| - 1].name
      requires !found ==> Unclaimed(refs, home, |configs|, |groups| - 1)
      modifies this
      ensures |groups| == |old(groups)| && CopiesOk(configs, refs, queue, groups, listed)
      ensures HomesOk(configs, refs, queue, groups, home, listed, |groups| - 1) && MarksOk(configs, refs, groups)
      ensures refs == old(refs)[r := old(refs)[r].(matched := true)]
      ensures old(queue) <= queue && |queue| == |old(queue)| + if found then 1 else 0
      ensures groups == old(groups)[|groups| - 1 := old(groups)[|groups| - 1].(referencedBy := r)]
      ensures Work(rank) <= old(Work(rank))
    {
      hide CopiesOk, HomesOk, MarksOk, Weight, Unclaimed;
      var g := |groups| - 1;
      CopyShape(configs, refs, queue, groups, listed, g);
      ListedNamesOriginal(configs, refs, queue, groups, home, listed, r);
      if found {
        AppendCopyFor(r, queue[g], rank, g);
      } else {
        ClaimOriginal(r, rank);
      }
      MarkStep(configs, refs, queue, groups, home, listed, g, r);
      groups := groups[g := groups[g].(referencedBy := r)];
    }

    /** The references in the lists that name the group: the first uses the copy itself, and a copy is
        appended for every other. */
    method MatchListed(ghost rank: string -> nat)
      requires Acyclic(configs, rank) && groups != []
      requires prepull <= listed <= |refs| && CopiesOk(configs, refs, queue, groups, listed)
      requires HomesOk(configs, refs, queue, groups, home, listed, |groups| - 1) && MarksOk(configs, refs, groups)
      requires Unclaimed(refs, home, |configs|, |groups| - 1)
      modifies this
      ensures Valid() && groups != []
      ensures SameMembers(old(groups), groups)
      ensures Advanced(old(refs), refs)
      ensures old(queue) <= queue
      ensures var waiting := Waiting(old(refs), listed, groups[|groups| - 1].name);
              |queue| == |old(queue)| + if waiting == 0 then 0 else waiting - 1
      ensures Work(rank) <= old(Work(rank))
    {
      hide CopiesOk, HomesOk, MarksOk, Weight, Unclaimed;
      var g := |groups| - 1;
      CopyShape(configs, refs, queue, groups, listed, g);
      var found := false;
      var r := 0;
      while r < listed
        invariant 0 <= r <= listed <= |refs| && g == |groups| - 1 && prepull <= listed
        invariant SameMembers(old(groups), groups)
        invariant Advanced(old(refs), refs)
        invariant old(queue) <= queue
        invariant CopiesOk(configs, refs, queue, groups, listed) && HomesOk(configs, refs, queue, groups, home, listed, g) && MarksOk(configs, refs, groups)
        invariant g < |queue| && (!found ==> Unclaimed(refs, home, |configs|, g))
        invariant forall s :: 0 <= s < r && refs[s].name == groups[g].name ==> refs[s].matched
        invariant forall s :: r <= s < listed ==> refs[s] == old(refs)[s]
        invariant var waiting := Waiting(old(refs), r, groups[g].name);
                  (found <==> waiting > 0) && |queue| == |old(queue)| + if found then waiting - 1 else 0
        invariant Work(rank) <= old(Work(rank))
      {
        if refs[r].name == groups[g].name && !refs[r].matched {
          MatchOneListed(r, found, rank);
          found := true;
        }
        r := r + 1;
      }
      ListedDone(configs, refs, queue, groups, home, listed);
    }

    /** The references of the group itself: a copy is appended for each that names a group. */
    method MatchOwn(ghost rank: string -> nat, ghost base: nat)
      requires Acyclic(configs, rank) && groups != [] && Valid() && OwnMatched(base)
      requires |refs| == base + |groups[|groups| - 1].refs|
      requires NumberedFrom(groups[|groups| - 1].refs, base)
      modifies this
      ensures Valid() && groups == old(groups) && OwnMatched(|refs|)
      ensures Advanced(old(refs), refs)
      ensures Work(rank) < old(Work(rank)) + Weight(configs, rank, groups[|groups| - 1].config)
    {
      hide CopiesOk, HomesOk, MarksOk;
      var g := |groups| - 1;
      CopyShape(configs, refs, queue, groups, listed, g);
      var c := groups[g].config;
      var j := 0;
      while j < |groups[g].refs|
        invariant groups == old(groups) && 0 <= j <= |groups[g].refs| == |configs[c].refs|
        invariant Valid() && OwnMatched(base + j)
        invariant Advanced(old(refs), refs)
        invariant Work(rank) <= old(Work(rank)) + RefsWeight(configs, rank, c, j)
      {
        CopyShape(configs, refs, queue, groups, listed, g);
        var id := groups[g].refs[j];
        MatchOne(id, rank);
        assert refs[id].name == configs[c].refs[j];
        j := j + 1;
      }
    }

    /** The first queued copy of the group a reference names is queued once more for it. */
    method MatchOne(id: nat, ghost rank: string -> nat)
      requires Acyclic(configs, rank) && Valid() && listed <= id < |refs|
      modifies this
      ensures Valid() && groups == old(groups)
      ensures Advanced(old(refs), refs)
      ensures Exists(configs, refs[id].name) ==> refs[id].matched
      ensures Work(rank) <= old(Work(rank)) + (if Exists(configs, refs[id].name) then Weight(configs, rank, First(configs, refs[id].name)) else 0)
    {
      hide CopiesOk, HomesOk, MarksOk;
      FirstQueued(configs, refs, queue, groups, listed, 0, refs[id].name);
      var n := |queue|;
      var k := 0;
      while k < n && !refs[id].matched
        invariant 0 <= k <= n <= |queue| && groups == old(groups)
        invariant Valid()
        invariant Advanced(old(refs), refs)
        invariant forall i :: 0 <= i < |queue| ==> queue[i] < |configs|
        invariant !refs[id].matched ==> refs == old(refs) && queue == old(queue) && forall i :: 0 <= i < k ==> configs[queue[i]].name != refs[id].name
        invariant Work(rank) <= old(Work(rank)) + (if refs[id].matched && Exists(configs, refs[id].name) then Weight(configs, rank, First(configs, refs[id].name)) else 0)
        decreases n - k
      {
        if configs[queue[k]].name == refs[id].name && !refs[id].matched {
          FirstQueued(configs, refs, queue, groups, listed, k, refs[id].name);
          AppendCopyFor(id, queue[k], rank, |groups|);
        }
        k := k + 1;
      }
      FirstQueued(configs, refs, queue, groups, listed, k, refs[id].name);
    }

    /** The worklist: copies are parsed in turn while parsing them appends more. */
    method Expand(ghost rank: string -> nat)
      requires Acyclic(configs, rank) && Valid() && groups == [] && OwnMatched(|refs|)
      modifies this
      ensures Bindable() && forall r :: 0 <= r < |refs| ==> refs[r].group == NONE
    {
      hide CopiesOk, HomesOk, MarksOk, Weight;
      while |groups| < |queue|
        invariant Valid() && OwnMatched(|refs|)
        decreases Work(rank)
      {
        ghost var base := |refs|;
        Parse(rank);
        MatchListed(rank);
        MatchOwn(rank, base);
      }
      AllMatched(configs, refs, queue, groups, home, listed);
      MarksAreBindings(configs, refs, queue, groups, listed);
    }

    // -------------------------------------------------------------- finalization

    /** All references have been matched with copies of their own, and those bound so far are bound to
        copies that are marked as theirs. */
    ghost predicate Bindable()
      reads this
    {
      && prepull <= listed <= |refs|
      && CopiesOk(configs, refs, queue, groups, listed)
      && HomesOk(configs, refs, queue, groups, home, listed, |groups|)
      && |groups| == |queue|
      && (forall r :: 0 <= r < |refs| && Exists(configs, refs[r].name) ==> refs[r].matched)
      && BindingsOk(configs, refs, groups)
    }

    /** Finalizing a reference binds it to a copy of the group it names, and finalizes the references
        in that copy.  What is bound stays bound. */
    method Finalize(r: nat, ghost rank: string -> nat)
      requires Acyclic(configs, rank) && Bindable() && r < |refs|
      modifies this`refs, this`groups
      ensures Bindable() && Kept(old(refs), refs, old(groups), groups)
      ensures Exists(configs, refs[r].name) <==> refs[r].group != NONE
      ensures old(refs[r].group) != NONE ==> refs[r].group == old(refs[r].group)
      decreases rank(refs[r].name)
    {
      hide CopiesOk, HomesOk, BindingsOk;
      var g := 0;
      while g < |groups| && !(groups[g].name == refs[r].name && (groups[g].referencedBy == NONE || groups[g].referencedBy == r))
        invariant 0 <= g <= |groups|
        invariant forall h :: 0 <= h < g ==> !Available(groups, h, refs[r].name, r)
      {
        g := g + 1;
      }
      ScanFinds(configs, refs, queue, groups, home, listed, r, g);
      KeptItself(refs, groups);
      if g < |groups| {
        BindStep(configs, refs, queue, groups, home, listed, r, g);
        refs := refs[r := refs[r].(group := g)];
        groups := groups[g := groups[g].(referencedBy := r)];
      }
      if refs[r].group == NONE {
        return;   // reported as not found
      }
      var members := groups[g].refs;
      var j := 0;
      while j < |members|
        invariant 0 <= j <= |members| && Bindable() && Kept(old(refs), refs, old(groups), groups)
        invariant r < |refs| && refs[r].group == g && g < |groups| && groups[g].refs == members && groups[g].name == refs[r].name == old(refs[r].name)
      {
        CopyShape(configs, refs, queue, groups, listed, g);
        assert refs[members[j]].name == configs[groups[g].config].refs[j];
        ghost var refs0, groups0 := refs, groups;
        Finalize(members[j], rank);
        KeptTransitive(old(refs), refs0, refs, old(groups), groups0, groups);
        j := j + 1;
      }
    }

    /** Finalizes references in turn. */
    method FinalizeEach(ids: seq<nat>, ghost rank: string -> nat)
      requires Acyclic(configs, rank) && Bindable() && forall i :: 0 <= i < |ids| ==> ids[i] < |refs|
      modifies this`refs, this`groups
      ensures Bindable() && Kept(old(refs), refs, old(groups), groups)
      ensures AllBound(configs, refs, ids)
    {
      hide CopiesOk, HomesOk, BindingsOk, Available;
      KeptItself(refs, groups);
      for i := 0 to |ids|
        invariant Bindable() && Kept(old(refs), refs, old(groups), groups)
        invariant forall k :: 0 <= k < i && Exists(configs, refs[ids[k]].name) ==> refs[ids[k]].group != NONE
      {
        ghost var refs0, groups0 := refs, groups;
        Finalize(ids[i], rank);
        KeptTransitive(old(refs), refs0, refs, old(groups), groups0, groups);
      }
    }

    /** Finalizing a rotation: the prepull references, those in the copies in turn, then the priority
        list.  Afterwards every reference of the lists and of the copies to a group that exists is
        bound to a copy of it, no two references share one, and what was bound stays bound. */
    method FinalizeAll(ghost rank: string -> nat)
      requires Acyclic(configs, rank) && Bindable()
      modifies this`refs, this`groups
      ensures Bindable() && Kept(old(refs), refs, old(groups), groups)
      ensures forall r :: 0 <= r < listed && Exists(configs, refs[r].name) ==> Bound(refs, groups, r)
      ensures forall g, j :: 0 <= g < |groups| && 0 <= j < |groups[g].refs| && groups[g].refs[j] < |refs| && Exists(configs, refs[groups[g].refs[j]].name) ==>
                Bound(refs, groups, groups[g].refs[j])
      ensures forall r, s :: 0 <= r < s < |refs| && refs[r].group != NONE ==> refs[r].group != refs[s].group
    {
      hide CopiesOk, HomesOk, BindingsOk, Available, Kept, AllBound;
      var first, last := seq(prepull, i => i), seq(listed - prepull, i => prepull + i);
      FinalizeEach(first, rank);
      var g := 0;
      while g < |groups|
        invariant 0 <= g <= |groups| == |old(groups)| && Bindable() && Kept(old(refs), refs, old(groups), groups)
        invariant AllBound(configs, refs, first)
        invariant forall h :: 0 <= h < g ==> AllBound(configs, refs, old(groups)[h].refs)
        decreases |groups| - g
      {
        MembersKept(configs, old(refs), refs, queue, old(groups), groups, listed, g);
        ghost var refs0, groups0 := refs, groups;
        FinalizeEach(groups[g].refs, rank);
        KeptTransitive(old(refs), refs0, refs, old(groups), groups0, groups);
        AllStillBound(configs, refs0, refs, groups0, groups, first);
        forall h | 0 <= h < g ensures AllBound(configs, refs, old(groups)[h].refs) {
          AllStillBound(configs, refs0, refs, groups0, groups, old(groups)[h].refs);
        }
        g := g + 1;
      }
      ghost var refs0, groups0 := refs, groups;
      FinalizeEach(last, rank);
      KeptTransitive(old(refs), refs0, refs, old(groups), groups0, groups);
      AllStillBound(configs, refs0, refs, groups0, groups, first);
      forall h | 0 <= h < |old(groups)| ensures AllBound(configs, refs, old(groups)[h].refs) {
        AllStillBound(configs, refs0, refs, groups0, groups, old(groups)[h].refs);
      }
      ListsBound(configs, refs, groups, first, last, prepull, listed);
      MembersBound(configs, old(refs), refs, old(groups), groups);
    }
  }
}
