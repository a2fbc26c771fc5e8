/** The outcome types shared by every model: optional values and failures in place of exceptions. */
module Results {

  datatype Option<+T> = None | Some(value: T)

  datatype Result<+T, +E> = Ok(value: T) | Err(error: E)

  function AsSeq<T>(option: Option<T>): seq<T> {
    match option
    case None => []
    case Some(x) => [x]
  }

  // The values present, in order.
  function Present<T>(options: seq<Option<T>>): seq<T> {
    if options == [] then []
    else
      Present(options[..|options| - 1]) + AsSeq(options[|options| - 1])
  }

  lemma {:induction false} PresentMember<T>(options: seq<Option<T>>, x: T)
    ensures x in Present(options) <==> Some(x) in options
  {
    if options != [] {
      var front, last := options[..|options| - 1], options[|options| - 1];
      PresentMember(front, x);
      assert options == front + [last];
    }
  }

  lemma TakeNext<T>(s: seq<T>, i: nat)
    requires i < |s|
    ensures s[..i + 1] == s[..i] + [s[i]]
  {
  }
}
