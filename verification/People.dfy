/** `people/use_cases.py`: who an identity is. Ending a link keeps its row; at most one is ACTIVE. */
module People {
  import opened Store
  import opened Tables
  import opened IdentityManager

  function LinkRefusal(t: Tables, i: IdentityId, p: PersonId): Option<Refusal> {
    if !IsActive(t.identities, i) || p !in t.people || !t.people[p] then Some(Invalid)
    else if exists l :: l in t.links && t.links[l].ActiveOf(i) && t.links[l].person == p then Some(Invalid)
    else None
  }

  function AfterLink(t: Tables, i: IdentityId, p: PersonId): Tables
    requires i in t.identities
  {
    t.(links := EndedLinks(t.links, i, LinkState.Superseded)[t.nextId := Link(i, p, LinkState.Active)], nextId := t.nextId + 1,
       identities := Touched(t.identities, i), evidence := t.evidence + [Evidence(AssignedToPerson, Some(i), Some(p), {})])
  }

  method AssignIdentityToPerson(session: LifecycleSession, i: IdentityId, p: PersonId) returns (r: Result<LinkId>)
    requires OneLinkEach(session.links) && session.nextId !in session.links
    modifies session
    ensures match LinkRefusal(old(session.T()), i, p)
      case Some(e) => r == Refused(e) && session.T() == old(session.T())
      case None => r == Ok(old(session.nextId)) && session.T() == AfterLink(old(session.T()), i, p)
  {
    if !IsActive(session.identities, i) || p !in session.people || !session.people[p] { return Refused(Invalid); }
    var links := session.links;
    if HasActiveLink(links, i) {
      var l :| l in links && links[l].ActiveOf(i);
      if links[l].person == p { return Refused(Invalid); }
      session.links := session.links[l := links[l].(state := LinkState.Superseded)];
    }
    assert session.links == EndedLinks(links, i, LinkState.Superseded);
    session.Record(Evidence(AssignedToPerson, Some(i), Some(p), {}));
    var id := session.NewId();
    session.links := session.links[id := Link(i, p, LinkState.Active)];
    session.identities := Touched(session.identities, i);
    r := Ok(id);
  }

  ghost function AfterUnlink(t: Tables, i: IdentityId): Tables
    requires i in t.identities && HasActiveLink(t.links, i)
  {
    t.(links := EndedLinks(t.links, i, LinkState.Removed), identities := Touched(t.identities, i),
       evidence := t.evidence + [Evidence(RemovedFromPerson, Some(i), Some(PersonOf(t.links, i)), {})])
  }

  // The identity need not be ACTIVE: only an existing row is ended.
  method RemoveIdentityFromPerson(session: LifecycleSession, i: IdentityId) returns (r: Result<LinkId>)
    requires OneLinkEach(session.links) && (HasActiveLink(session.links, i) ==> i in session.identities)
    modifies session
    ensures if HasActiveLink(old(session.links), i) then
        r.Ok? && r.value in old(session.links) && old(session.links)[r.value].ActiveOf(i)
        && session.T() == AfterUnlink(old(session.T()), i)
      else r == Refused(Invalid) && session.T() == old(session.T())
  {
    var links := session.links;
    if !HasActiveLink(links, i) { return Refused(Invalid); }
    var l :| l in links && links[l].ActiveOf(i);
    session.Record(Evidence(RemovedFromPerson, Some(i), Some(links[l].person), {}));
    session.links := links[l := links[l].(state := LinkState.Removed)];
    assert PersonOf(links, i) == links[l].person;
    assert session.links == EndedLinks(links, i, LinkState.Removed);
    session.identities := Touched(session.identities, i);
    r := Ok(l);
  }

  // `blank`: nothing is left of the name once stripped.
  function NameRefusal(t: Tables, i: IdentityId, blank: bool): Option<Refusal> {
    if blank || !IsActive(t.identities, i) || HasActiveLink(t.links, i) then Some(Invalid) else None
  }

  function WithPerson(t: Tables): Tables { t.(people := t.people[t.nextId := true], nextId := t.nextId + 1) }

  method NameIdentity(session: LifecycleSession, i: IdentityId, blank: bool) returns (r: Result<PersonId>)
    requires OneLinkEach(session.links) && forall l :: l in session.links ==> l < session.nextId
    modifies session
    ensures match NameRefusal(old(session.T()), i, blank)
      case Some(e) => r == Refused(e) && session.T() == old(session.T())
      case None => r == Ok(old(session.nextId))
                   && session.T() == AfterLink(WithPerson(old(session.T())), i, old(session.nextId))
  {
    if blank || !IsActive(session.identities, i) || HasActiveLink(session.links, i) { return Refused(Invalid); }
    var person := session.NewId();
    session.people := session.people[person := true];
    var _ := AssignIdentityToPerson(session, i, person);
    r := Ok(person);
  }

  // ----- what links keep -----

  lemma TouchKeepsForest(identities: Identities, i: IdentityId)
    requires Forest(identities) && i in identities
    ensures Forest(Touched(identities, i))
  {
    var rank :| Ranked(identities, rank);
    assert Ranked(Touched(identities, i), rank);
  }

  lemma LinkKeepsLinks(t: Tables, i: IdentityId, p: PersonId, l: LinkId)
    requires LifecycleInv(t) && IsActive(t.identities, i) && l in AfterLink(t, i, p).links
    ensures LinkOwned(AfterLink(t, i, p), l)
  {
    var u := AfterLink(t, i, p);
    if l in t.links { assert LinkOwned(t, l); }
    forall k | k in u.links && u.links[k].ActiveOf(u.links[l].identity) && u.links[l].state.Active? ensures k == l {
      if k in t.links { assert LinkOwned(t, k); }
    }
  }

  lemma LinkKeepsInv(t: Tables, i: IdentityId, p: PersonId)
    requires LifecycleInv(t) && IsActive(t.identities, i)
    ensures LifecycleInv(AfterLink(t, i, p)) && SameIndex(t, AfterLink(t, i, p))
  {
    var u := AfterLink(t, i, p);
    TouchKeepsForest(t.identities, i);
    forall r | r in u.reps ensures RepOwned(u, r) { assert RepOwned(t, r); }
    forall o | o in u.occurrences ensures OccurrenceOwned(u, o) { assert OccurrenceOwned(t, o); }
    forall l | l in u.links ensures LinkOwned(u, l) { LinkKeepsLinks(t, i, p, l); }
  }

  lemma UnlinkKeepsInv(t: Tables, i: IdentityId)
    requires LifecycleInv(t) && i in t.identities && HasActiveLink(t.links, i)
    ensures LifecycleInv(AfterUnlink(t, i)) && SameIndex(t, AfterUnlink(t, i))
  {
    var u := AfterUnlink(t, i);
    TouchKeepsForest(t.identities, i);
    forall r | r in u.reps ensures RepOwned(u, r) { assert RepOwned(t, r); }
    forall o | o in u.occurrences ensures OccurrenceOwned(u, o) { assert OccurrenceOwned(t, o); }
    forall l | l in u.links ensures LinkOwned(u, l) { assert LinkOwned(t, l); }
  }

  lemma NameKeepsInv(t: Tables, i: IdentityId)
    requires LifecycleInv(t) && IsActive(t.identities, i)
    ensures LifecycleInv(AfterLink(WithPerson(t), i, t.nextId)) && SameIndex(t, AfterLink(WithPerson(t), i, t.nextId))
  {
    var w := WithPerson(t);
    forall r | r in w.reps ensures RepOwned(w, r) { assert RepOwned(t, r); }
    forall o | o in w.occurrences ensures OccurrenceOwned(w, o) { assert OccurrenceOwned(t, o); }
    forall l | l in w.links ensures LinkOwned(w, l) { assert LinkOwned(t, l); }
    LinkKeepsInv(w, i, t.nextId);
  }
}
