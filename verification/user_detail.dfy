/**
 * The user detail view: it validates the identifier taken from the route,
 * fetches that one user, and keeps the loading/error state of the fetch.
 */
module UserDetailComponent {

  import opened Wrappers
  import opened UserModel
  import opened HttpInterceptor

  const InvalidIdMessage := "Invalid user ID"

  /**
   * `id && id > 0` on the numeric route parameter (`None` standing for NaN):
   * `0` and NaN are falsy, negatives fail the comparison, and any positive
   * number passes, integral or not.
   */
  predicate IsValidId(id: Option<real>)
    ensures IsValidId(id) <==> id.Some? && id.value > 0.0
  {
    id.Some? && id.value != 0.0 && id.value > 0.0
  }

  /** NaN, zero and negatives are rejected; a positive non-integer passes. */
  lemma IsValidIdExamples()
    ensures !IsValidId(None) && !IsValidId(Some(0.0)) && !IsValidId(Some(-1.0))
    ensures IsValidId(Some(1.0)) && IsValidId(Some(1.5))
  {
  }

  /**
   * The view's state. `userId` is the value of the route-id signal, `user` the
   * value the user subject holds. `requested` lists the identifiers the view
   * has fetched, in order.
   */
  class UserDetail {
    var userId: Option<real>
    var user: Option<User>
    var loading: bool
    var error: Option<string>
    ghost var requested: seq<real>

    /** A fresh view: the id signal holds its initial `0`, no user, loading, no error. */
    constructor ()
      ensures userId == Some(0.0) && user == None && loading && error == None && requested == []
    {
      userId := Some(0.0);
      user := None;
      loading := true;
      error := None;
      requested := [];
    }

    /** The route parameters emit: the id signal takes the parsed value. */
    method OnRouteParams(id: Option<real>)
      modifies this
      ensures userId == id
      ensures user == old(user) && loading == old(loading) && error == old(error) && requested == old(requested)
    {
      userId := id;
    }

    /** `loadUser` up to the subscription: loading, no error, one fetch of `id` issued. */
    method BeginLoad(id: real)
      modifies this
      ensures loading && error == None && requested == old(requested) + [id]
      ensures userId == old(userId) && user == old(user)
    {
      loading := true;
      error := None;
      requested := requested + [id];
    }

    /** The `next` handler: the fetched user is stored and loading ends; the error is kept. */
    method OnNext(fetched: User)
      modifies this
      ensures user == Some(fetched) && !loading
      ensures error == old(error) && userId == old(userId) && requested == old(requested)
    {
      user := Some(fetched);
      loading := false;
    }

    /** The `error` handler: the message becomes the error and loading ends; the user is kept. */
    method OnError(message: string)
      modifies this
      ensures error == Some(message) && !loading
      ensures user == old(user) && userId == old(userId) && requested == old(requested)
    {
      error := Some(message);
      loading := false;
    }

    /**
     * The `complete` handler: loading ends and nothing else changes, so after
     * `next` or `error`, which already ended it, it changes nothing at all.
     */
    method OnComplete()
      modifies this
      ensures !loading
      ensures user == old(user) && error == old(error) && userId == old(userId) && requested == old(requested)
      ensures !old(loading) ==> unchanged(this)
    {
      loading := false;
    }

    /**
     * `loadUser(id)` with the fetch finishing in `outcome`. A success emits the
     * user and completes; a failure only errors.
     */
    method LoadUser(id: real, outcome: Outcome<User>)
      modifies this
      ensures !loading && requested == old(requested) + [id] && userId == old(userId)
      ensures outcome.Success? ==> user == Some(outcome.value) && error == None
      ensures outcome.Failure? ==> user == old(user) && error == Some(outcome.message)
    {
      BeginLoad(id);
      match outcome {
        case Success(fetched) =>
          OnNext(fetched);
          OnComplete();
        case Failure(message) =>
          OnError(message);
      }
    }

    /**
     * `ngOnInit`: a valid id is fetched, exactly once and as it is; any other
     * id gives the fixed error, ends loading, and fetches nothing.
     */
    method NgOnInit(outcome: Outcome<User>)
      modifies this
      ensures !loading && userId == old(userId)
      ensures IsValidId(userId) ==> requested == old(requested) + [userId.value]
      ensures IsValidId(userId) && outcome.Success? ==> user == Some(outcome.value) && error == None
      ensures IsValidId(userId) && outcome.Failure? ==> user == old(user) && error == Some(outcome.message)
      ensures !IsValidId(userId) ==> error == Some(InvalidIdMessage) && user == old(user) && requested == old(requested)
    {
      var id := userId;
      if IsValidId(id) {
        LoadUser(id.value, outcome);
      } else {
        error := Some(InvalidIdMessage);
        loading := false;
      }
    }

    /** `onRetry`: a valid id is fetched again; otherwise nothing happens. */
    method OnRetry(outcome: Outcome<User>)
      modifies this
      ensures userId == old(userId)
      ensures IsValidId(userId) ==> !loading && requested == old(requested) + [userId.value]
      ensures IsValidId(userId) && outcome.Success? ==> user == Some(outcome.value) && error == None
      ensures IsValidId(userId) && outcome.Failure? ==> user == old(user) && error == Some(outcome.message)
      ensures !IsValidId(userId) ==> unchanged(this)
    {
      var id := userId;
      if IsValidId(id) {
        LoadUser(id.value, outcome);
      }
    }
  }

}
