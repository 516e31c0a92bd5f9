/** What a handler invocation does to the outside world, in order, and how it ends. */
module Effects {
  import opened Wrappers
  import opened Errors
  import opened Store
  import opened Messages

  datatype Effect =
    | Post(delivery: Delivery)
    | SetStatus(userId: string, vacationId: string, status: string)
    | DeleteItem(userId: string, vacationId: string)

  /** A handler's return value: Python `None`, or `{"statusCode": code}`. */
  datatype Response = NoBody | StatusCode(code: int)

  datatype Outcome = Returned(response: Response) | Raised(error: Exception)

  /** The effects performed, in order, and whether the call returned or raised after them. */
  datatype Run = Run(effects: seq<Effect>, outcome: Outcome)

  const Done: Outcome := Returned(NoBody)

  /** One effect's change to the table; posts leave it alone. */
  function Perform(t: Table, e: Effect): Table
  {
    match e
    case Post(_) => t
    case SetStatus(u, v, s) => UpdateVacationStatus(t, u, v, s)
    case DeleteItem(u, v) => DeleteVacation(t, u, v)
  }

  /** The table after performing the effects in order. */
  function Apply(t: Table, effects: seq<Effect>): Table
    decreases |effects|
  {
    if effects == [] then t else Apply(Perform(t, effects[0]), effects[1..])
  }

  lemma ApplyOne(t: Table, e: Effect)
    ensures Apply(t, [e]) == Perform(t, e)
  {
    assert [e][1..] == [];
  }

  lemma ApplyTwo(t: Table, e1: Effect, e2: Effect)
    ensures Apply(t, [e1, e2]) == Perform(Perform(t, e1), e2)
  {
    assert [e1, e2][1..] == [e2];
    ApplyOne(Perform(t, e1), e2);
  }

  predicate NoStoreWrites(effects: seq<Effect>)
  {
    forall i :: 0 <= i < |effects| ==> effects[i].Post?
  }

  lemma {:induction false} ApplyPostsOnly(t: Table, effects: seq<Effect>)
    requires NoStoreWrites(effects)
    ensures Apply(t, effects) == t
    decreases |effects|
  {
    if effects != [] {
      assert NoStoreWrites(effects[1..]) by {
        forall i | 0 <= i < |effects[1..]| ensures effects[1..][i].Post? {
          assert effects[1..][i] == effects[i + 1];
        }
      }
      ApplyPostsOnly(t, effects[1..]);
    }
  }

  /** A message send as a step: the post it makes, or the error `send_message` raised. */
  function PostOf(r: Result<Delivery, Exception>): Result<Effect, Exception>
  {
    match r
    case Success(d) => Success(Post(d))
    case Failure(x) => Failure(x)
  }

  /** Append the next step's effect, or stop with its error. */
  function Then(prior: seq<Effect>, next: Result<Effect, Exception>): (r: Run)
  {
    match next
    case Success(e) => Run(prior + [e], Done)
    case Failure(x) => Run(prior, Raised(x))
  }
}
