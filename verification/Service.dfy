/** What the results service answers about a poll, to the API workers and to the consumer. */
module Service {
  import opened Basics

  // endsAt None is the zero time, which every clock reading is past.
  datatype Poll = Poll(endsAt: Option<int>, options: seq<int>)

  datatype Error = NotFound | Unavailable(detail: string) | Cancelled

  datatype Answer = Found(poll: Poll) | Failed(error: Error)

  predicate Ended(poll: Poll, now: int) {
    poll.endsAt.Some? ==> now >= poll.endsAt.value
  }
}
