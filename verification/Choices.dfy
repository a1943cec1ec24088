/** The random source of the generators.

    A generator reads from `Unstructured`, a finite supply of random bytes.  Here the supply is a
    finite sequence of already decoded choices.  A read takes the next choice and fails when there
    is none or when it does not fit the request, so a statement about every sequence covers every
    run of a generator, the runs that fail included. */
module Choices {
  import opened Wrappers

  datatype Error = NotEnoughData | EmptyChoose | TooDeep | IncorrectFormat | Panicked

  /** What a generator returns */
  type Drawn<+T> = Result<T, Error>

  /** A generator */
  type Draw<!T> = Unstructured -> Drawn<(T, Unstructured)>

  type Annotations = map<string, string>

  datatype Choice = Flip(heads: bool) | Pick(index: nat) | Text(text: string) | Notes(notes: Annotations)

  type Unstructured = seq<Choice>

  /** `u.ratio(..)` and `u.arbitrary::<bool>()` */
  function ReadFlip(u: Unstructured): Drawn<(bool, Unstructured)> {
    if u == [] then Err(NotEnoughData)
    else if u[0].Flip? then Ok((u[0].heads, u[1..]))
    else Err(IncorrectFormat)
  }

  /** `u.choose_index(n)`: an index below `n` */
  function ReadIndex(u: Unstructured, n: nat): (r: Drawn<(nat, Unstructured)>)
    ensures r.Ok? ==> r.value.0 < n
  {
    if n == 0 then Err(EmptyChoose)
    else if u == [] then Err(NotEnoughData)
    else if u[0].Pick? && u[0].index < n then Ok((u[0].index, u[1..]))
    else Err(IncorrectFormat)
  }

  /** `u.arbitrary::<String>()` and the identifier types built on it */
  function ReadText(u: Unstructured): Drawn<(string, Unstructured)> {
    if u == [] then Err(NotEnoughData)
    else if u[0].Text? then Ok((u[0].text, u[1..]))
    else Err(IncorrectFormat)
  }

  /** `u.arbitrary::<Annotations>()` */
  function ReadNotes(u: Unstructured): Drawn<(Annotations, Unstructured)> {
    if u == [] then Err(NotEnoughData)
    else if u[0].Notes? then Ok((u[0].notes, u[1..]))
    else Err(IncorrectFormat)
  }

  /** Annotations for `n` declarations, none of which is kept */
  function SkipNotes(n: nat, u: Unstructured): Drawn<Unstructured> {
    if n == 0 then Ok(u)
    else
      var (_, u1) :- ReadNotes(u);
      SkipNotes(n - 1, u1)
  }
}
