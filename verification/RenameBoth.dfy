/** The combined rename as one call on the two registries. */
module RenameBoth {
  import opened Wrappers
  import CR = ClientRoster
  import CW = ClientRuns
  import SP = SessionPresence
  import SW = SessionRuns
  import CS = ClientSessions
  import SR = SessionRegistry
  import NameRules

  datatype Refusal =
    | Malformed(reason: NameRules.NameError)
    | NoClient
    | HeldByClient(id: CR.ClientId)
    | NoParticipant
    | HeldByParticipant(window: SP.WindowId)

  /** Both registries allow the name. */
  ghost predicate BothAllow(clients: CR.Roster, participants: SP.Registry, id: CR.ClientId, name: Option<string>, window: SP.WindowId) {
    CR.RenameAllowed(clients, id, name) && SP.RenameAllowed(participants, window, name)
  }

  ghost function RenamedClient(w: CW.World, id: CR.ClientId, name: Option<string>): CW.World {
    CW.Apply(w, CW.RenamedTo(id, name))
  }

  ghost function RenamedParticipant(s: SW.System, window: SP.WindowId, name: Option<string>): SW.System {
    SW.Apply(s, SW.Renamed(window, name))
  }

  /** Both show the stored form of the name, the client's by command. */
  ghost predicate BothNamed(clients: CR.Roster, participants: SP.Registry, id: CR.ClientId, name: Option<string>, window: SP.WindowId) {
    var stored := NameRules.Stored(name);
    && id in clients.clients && clients.clients[id].source == CR.Command && clients.clients[id].name == stored
    && window in participants.participants && participants.participants[window].name == stored
  }

  /** The refusal is the first that applies: the name, the client, its name, the participant, its name. */
  ghost predicate Explains(refusal: Refusal, clients: CR.Roster, participants: SP.Registry,
                           id: CR.ClientId, name: Option<string>, window: SP.WindowId) {
    match refusal
    case Malformed(reason) => name.Some? && NameRules.Validate(name.value) == Err(reason)
    case NoClient => NameRules.WellFormed(name) && id !in clients.clients
    case HeldByClient(other) =>
      && NameRules.WellFormed(name) && id in clients.clients
      && CR.NameHeld(clients, id, CR.CheckedName(clients.clients[id], NameRules.Stored(name)), other)
    case NoParticipant => CR.RenameAllowed(clients, id, name) && window !in participants.participants
    case HeldByParticipant(other) =>
      && CR.RenameAllowed(clients, id, name) && window in participants.participants
      && SP.Holds(participants, window, name, other)
  }

  /**
   * Name a client and a participant together, or reset both. The client's
   * check comes first, then the participant's, then both writes.
   */
  method RenameWithParticipant(clients: CS.ClientSessions, participants: SR.SessionRegistry,
                               id: CR.ClientId, name: Option<string>, window: SP.WindowId)
    returns (refusal: Option<Refusal>)
    requires clients.Valid() && participants.Valid()
    modifies clients, participants
    ensures clients.Valid() && participants.Valid()
    ensures refusal.None? <==> BothAllow(old(clients.View()), old(participants.View()), id, name, window)
    ensures refusal.None? ==>
      && clients.Contents() == RenamedClient(old(clients.Contents()), id, name)
      && participants.Contents() == RenamedParticipant(old(participants.Contents()), window, name)
      && BothNamed(clients.View(), participants.View(), id, name, window)
    ensures refusal.Some? ==>
      clients.Contents() == old(clients.Contents()) && participants.Contents() == old(participants.Contents())
    ensures refusal.Some? ==>
      Explains(refusal.value, old(clients.View()), old(participants.View()), id, name, window)
  {
    hide CW.Inv, SW.Inv, CR.NameAvailable, SP.Holds, NameRules.Validate;
    if !NameRules.WellFormed(name) {
      return Some(Malformed(NameRules.Validate(name.value).error));
    }
    if id !in clients.clients {
      return Some(NoClient);
    }
    var stored := NameRules.Stored(name);
    SP.StoredRenames(participants.View(), window, name);
    var held := clients.FindHeld(id, CR.CheckedName(clients.clients[id], stored));
    if held.Some? {
      return Some(HeldByClient(held.value));
    }
    var renamed := participants.RenameValidated(window, stored);
    if renamed.Err? {
      return Some(if renamed.error.Unknown? then NoParticipant else HeldByParticipant(renamed.error.holder));
    }
    var named := clients.Rename(id, name);
    return None;
  }
}
