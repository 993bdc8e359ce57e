// The BSON class map of ProfileCommunity: the element name under which each member is stored.
module ClassMaps {
  /** The BSON element names of ProfileCommunity's members, as the class declares them. */
  const ElementNamesAsWritten: seq<string> :=
    ["_id", "profileId", "communityId", "name", "type", "communityUpdatedAt", "communityUpdatedAt"]

  /** The element names with `Groups` stored under its own name, as the ProfileCommunity rows of the model store it. */
  const ElementNames: seq<string> :=
    ["_id", "profileId", "communityId", "name", "type", "communityUpdatedAt", "groups"]

  /** BsonClassMap freezes a class map only when no two members share an element name. */
  predicate ClassMapAccepts(names: seq<string>)
  {
    forall i, j :: 0 <= i < j < |names| ==> names[i] != names[j]
  }

  /** As written, CommunityUpdatedAt and Groups share "communityUpdatedAt", so the class map is refused. */
  lemma DuplicateElementAsWritten()
    ensures !ClassMapAccepts(ElementNamesAsWritten)
    ensures ElementNamesAsWritten[5] == ElementNamesAsWritten[6] == "communityUpdatedAt"
  {
  }

  /** With Groups under "groups" every member has its own element. */
  lemma ElementNamesAccepted()
    ensures ClassMapAccepts(ElementNames)
    ensures |ElementNames| == |ElementNamesAsWritten| && forall i :: 0 <= i < 6 ==> ElementNames[i] == ElementNamesAsWritten[i]
  {
  }
}
