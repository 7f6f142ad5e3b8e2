/** The role an actor response reports (`ActorResponseDto.getRolle`), read off the prefix of
    the actor id, and its agreement with the ids the chaincode's `initCall` hands out. */
module ActorRole {
  import opened Wrappers
  import opened Text
  import Ledger
  import LedgerProperties

  const Unknown := "unbekannt"

  /** The roles an id prefix can name. */
  const PrefixRoles: seq<string> := ["hersteller", "grosshaendler", "apotheke", "behoerde"]

  /** `getRolle()`: "unbekannt" for a missing or blank id, otherwise the role whose name
      followed by '-' begins the id (case-sensitively), or "unbekannt" if none does. */
  function RoleFromId(actorId: Option<string>): (r: string)
    ensures actorId.None? || IsJavaBlank(actorId.value) ==> r == Unknown
    ensures r == Unknown || r in PrefixRoles
    ensures r != Unknown ==> actorId.Some? && StartsWith(actorId.value, r + "-")
    ensures actorId.Some? && !IsJavaBlank(actorId.value) ==>
      forall k :: 0 <= k < |PrefixRoles| && StartsWith(actorId.value, PrefixRoles[k] + "-") ==> r == PrefixRoles[k]
  {
    if actorId.None? || IsJavaBlank(actorId.value) then Unknown
    else
      var id := actorId.value;
      PrefixesExclusive(id);
      if StartsWith(id, "hersteller-") then "hersteller"
      else if StartsWith(id, "grosshaendler-") then "grosshaendler"
      else if StartsWith(id, "apotheke-") then "apotheke"
      else if StartsWith(id, "behoerde-") then "behoerde"
      else Unknown
  }

  /** The four prefixes begin with different letters, so an id begins with at most one. */
  lemma PrefixesExclusive(id: string)
    ensures forall k, j ::
      0 <= k < |PrefixRoles| && 0 <= j < |PrefixRoles| &&
      StartsWith(id, PrefixRoles[k] + "-") && StartsWith(id, PrefixRoles[j] + "-") ==>
      k == j
  {
    forall k, j | 0 <= k < |PrefixRoles| && 0 <= j < |PrefixRoles| &&
      StartsWith(id, PrefixRoles[k] + "-") && StartsWith(id, PrefixRoles[j] + "-")
      ensures k == j
    {
      assert id[0] == (PrefixRoles[k] + "-")[0] == (PrefixRoles[j] + "-")[0];
    }
  }

  /** The id `initCall` gives an actor names the role of the registering certificate: a
      response for that actor reports the certificate's role, lowercased. */
  lemma RoleOfRegisteredActor(st: Ledger.WorldState, who: Ledger.Identity, sha: string -> string,
                              bezeichnung: string, email: string, ipfsLink: string)
    requires LedgerProperties.Consistent(st)
    requires Ledger.InitCall(st, who, sha, bezeichnung, email, ipfsLink).Success?
    ensures var actor := Ledger.InitCall(st, who, sha, bezeichnung, email, ipfsLink).value.output.actor;
      RoleFromId(Some(actor.actorId)) == Lower(Ledger.CertRole(who).value)
  {
    LedgerProperties.InitCallActorId(st, who, sha, bezeichnung, email, ipfsLink);
    var id := Ledger.InitCall(st, who, sha, bezeichnung, email, ipfsLink).value.output.actor.actorId;
    var role := Lower(Ledger.CertRole(who).value);
    assert role in PrefixRoles;
    assert !IsJavaBlank(id) by {
      assert id[0] == role[0];
    }
  }
}
