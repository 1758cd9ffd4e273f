/** The client's mapping from a failed API call to the message shown to the
    user (handleApiError). An error carries the response the server sent, if
    any, and whether a request went out at all. */
module ErrorHandling {
  import opened Text

  datatype Response = Response(status: int)

  datatype ApiError = ApiError(response: Option<Response>, request: bool)

  const InvalidData := "Données de commande invalides. Veuillez vérifier vos informations."
  const SessionExpired := "Session expirée. Veuillez vous reconnecter."
  const AccessDenied := "Accès non autorisé."
  const ServiceUnavailable := "Service de commande non disponible."
  const OrderConflict := "Conflit avec une commande existante."
  const ServerFailure := "Erreur serveur. Veuillez réessayer plus tard."
  const GenericFailure := "Une erreur s'est produite. Veuillez réessayer."
  const Unreachable := "Impossible de joindre le serveur. Vérifiez votre connexion."
  const PreparationFailure := "Une erreur s'est produite lors de la préparation de la requête."

  /** The statuses that have a message of their own. */
  const KnownStatuses: set<int> := {400, 401, 403, 404, 409, 500}

  /** Every message handleApiError can return, in the order the source lists them. */
  const Messages: seq<string> := [InvalidData, SessionExpired, AccessDenied, ServiceUnavailable,
                                  OrderConflict, ServerFailure, GenericFailure, Unreachable,
                                  PreparationFailure]

  function StatusMessage(status: int): string
  {
    match status
    case 400 => InvalidData
    case 401 => SessionExpired
    case 403 => AccessDenied
    case 404 => ServiceUnavailable
    case 409 => OrderConflict
    case 500 => ServerFailure
    case _ => GenericFailure
  }

  /** A response decides the message by its status alone; without one, a
      request that went out means the server could not be reached, and no
      request means it could not even be prepared. */
  function HandleApiError(error: ApiError): (message: string)
    ensures message in Messages
    ensures message == Unreachable <==> error.response.None? && error.request
    ensures message == PreparationFailure <==> error.response.None? && !error.request
    ensures message == GenericFailure <==> error.response.Some? && error.response.value.status !in KnownStatuses
    ensures error.response.Some? ==> message !in {Unreachable, PreparationFailure}
  {
    if error.response.Some? then StatusMessage(error.response.value.status)
    else if error.request then Unreachable
    else PreparationFailure
  }

  /** The nine messages are pairwise different. */
  lemma MessagesDistinct()
    ensures forall i, j :: 0 <= i < j < |Messages| ==> Messages[i] != Messages[j]
  {
  }

  /** When a response exists, its status alone decides the message: the
      request flag is never consulted, and statuses with a message of their
      own get different messages. */
  lemma ResponseTakesPrecedence(a: ApiError, b: ApiError)
    requires a.response.Some? && b.response.Some?
    ensures a.response.value.status == b.response.value.status ==> HandleApiError(a) == HandleApiError(b)
    ensures a.response.value.status in KnownStatuses && a.response.value.status != b.response.value.status
            ==> HandleApiError(a) != HandleApiError(b)
  {
  }
}
