/** New-destination alerts from the fields of the observations alone: what counts as the same place. */
module AlertLabels {
  import opened Bytes
  import opened AlertTypes
  import opened AlertStore
  import opened AlertBaseline
  import opened AlertEngine
  import opened AlertFirings
  import opened AlertHistory
  import opened AlertRuns
  import opened AlertRepeats

  /** A place is known by its organisation, else by its domain if it has a name, else by its address. */
  predicate PlaceIs(ev: Observation, place: string) {
    || ev.geo.asOrg == Some(place)
    || (ev.geo.asOrg == None && ev.name != None && ev.domain == place)
    || (ev.geo.asOrg == None && ev.name == None && ev.destIp == place)
  }

  /** Two observations of one place, whatever else about them differs. */
  predicate SamePlace(a: Observation, b: Observation) {
    || (a.geo.asOrg != None && a.geo.asOrg == b.geo.asOrg)
    || (a.geo.asOrg == None == b.geo.asOrg && a.name != None && b.name != None && a.domain == b.domain)
    || (a.geo.asOrg == None == b.geo.asOrg && a.name == None == b.name && a.destIp == b.destIp)
  }

  /** Nothing about the observation is this text. */
  predicate Unrelated(ev: Observation, place: string) {
    ev.geo.asOrg != Some(place) && ev.domain != place && ev.destIp != place
  }

  lemma LabelIsPlace(ev: Observation, place: string)
    ensures StableLabel(ev) == place <==> PlaceIs(ev, place)
  {
  }

  lemma ContactsAre(h: History, exe: string, place: string)
    ensures (exe, place) in Contacts(h) <==> exists e <- h :: By(e, exe) && PlaceIs(e, place)
  {
    hide PlaceIs, StableLabel, Exe;
    forall e
      ensures StableLabel(e) == place <==> PlaceIs(e, place)
    {
      LabelIsPlace(e, place);
    }
  }

  /**
   DESTINATIONS. An observation raises a new-destination alert if and only if it is attributed and
   outbound, the learning window is over, and no earlier observation of the executable was of its place.
   */
  lemma NewPlaceExactly(cfg: Config, h: History, ev: Observation, place: string)
    requires PlaceIs(ev, place)
    ensures Raises(NewAlerts(cfg, h, ev), NewProcessDest) <==>
      && ev.process.Some? && ev.outbound && WindowOver(cfg, h + [ev])
      && !exists e <- h :: By(e, Exe(ev.process.value)) && PlaceIs(e, place)
  {
    NewDestinationFires(cfg, h, ev);
    LabelIsPlace(ev, place);
    if ev.process.Some? {
      ContactsAre(h, Exe(ev.process.value), place);
    }
    hide After, Raises, WindowOver, PlaceIs, By, Contacts, StableLabel, Exe;
  }

  lemma HasPlace(ev: Observation) returns (place: string)
    ensures PlaceIs(ev, place)
  {
    place := if ev.geo.asOrg.Some? then ev.geo.asOrg.value else if ev.name.Some? then ev.domain else ev.destIp;
  }

  /** Never again for the same organisation; without one the same domain; without either the same address. */
  lemma SamePlaceIsSilent(cfg: Config, h: History, ev: Observation, e: Observation)
    requires ev.process.Some? && e in h && By(e, Exe(ev.process.value)) && SamePlace(e, ev)
    ensures !Raises(NewAlerts(cfg, h, ev), NewProcessDest)
  {
    var place := HasPlace(ev);
    assert PlaceIs(e, place);
    hide Raises, NewAlerts, PlaceIs, WindowOver, Exe;
    NewPlaceExactly(cfg, h, ev, place);
  }

  /** Always for a place no earlier observation of the executable has anything to do with. */
  lemma UnrelatedPlaceFires(cfg: Config, h: History, ev: Observation, place: string)
    requires ev.process.Some? && ev.outbound && WindowOver(cfg, h + [ev]) && PlaceIs(ev, place)
    requires forall e <- h :: By(e, Exe(ev.process.value)) ==> Unrelated(e, place)
    ensures Raises(NewAlerts(cfg, h, ev), NewProcessDest)
  {
    hide Raises, NewAlerts, WindowOver, Exe;
    NewPlaceExactly(cfg, h, ev, place);
  }
}
