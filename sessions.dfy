/** The registry mapping each connected user's email to the session of their latest connection. */
module Sessions {
  import opened ChatTypes

  datatype ConnectError = MissingUsername | MissingEmail

  /** Who is connecting: the display name and the email that keys the registry. */
  datatype Identity = Identity(username: string, email: string)

  /**
   * The connection's query parameters: `username` is looked up first, then
   * `email`; a missing one rejects the connection with its own reason.
   */
  function ParseQuery(query: map<string, string>): (r: Result<Identity, ConnectError>)
    ensures r.Success? <==> "username" in query && "email" in query
    ensures r.Success? ==> r.value == Identity(query["username"], query["email"])
    ensures r == Failure(MissingUsername) <==> "username" !in query
    ensures r == Failure(MissingEmail) <==> "username" in query && "email" !in query
  {
    if "username" !in query then Failure(MissingUsername)
    else if "email" !in query then Failure(MissingEmail)
    else Success(Identity(query["username"], query["email"]))
  }

  class SessionRegistry {
    /** email -> session id of the connection that registered last. */
    var sessions: map<string, string>

    constructor ()
      ensures sessions == map[]
    {
      sessions := map[];
    }

    /**
     * Connect: a query without both parameters leaves the registry alone;
     * otherwise the email is mapped to the fresh session, replacing any
     * earlier mapping, and every other entry is kept.
     */
    method Attach(query: map<string, string>, freshSession: string) returns (r: Result<Identity, ConnectError>)
      modifies this
      ensures r == ParseQuery(query)
      ensures r.Failure? ==> sessions == old(sessions)
      ensures r.Success? ==> sessions == old(sessions)[r.value.email := freshSession]
      ensures r.Success? ==> r.value.email in sessions && sessions[r.value.email] == freshSession
      ensures r.Success? ==> forall k :: k != r.value.email ==>
        (k in sessions <==> k in old(sessions)) && (k in sessions ==> sessions[k] == old(sessions)[k])
    {
      r := ParseQuery(query);
      if r.Success? {
        sessions := sessions[r.value.email := freshSession];
      }
    }

    /** Disconnect: the email's entry goes, whatever session it maps to; removing an absent key changes nothing. */
    method Detach(email: string)
      modifies this
      ensures sessions == old(sessions) - {email}
      ensures email !in sessions
      ensures forall k :: k != email ==>
        (k in sessions <==> k in old(sessions)) && (k in sessions ==> sessions[k] == old(sessions)[k])
      ensures email !in old(sessions) ==> sessions == old(sessions)
    {
      sessions := sessions - {email};
    }
  }
}
