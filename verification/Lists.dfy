/** Lists built from the front. */
module Lists {

  datatype List<T> = Nil | Cons(head: T, tail: List<T>)

  function Append<T>(a: List<T>, b: List<T>): List<T> {
    match a
    case Nil => b
    case Cons(head, tail) => Cons(head, Append(tail, b))
  }

  lemma {:induction false} AppendNil<T>(a: List<T>)
    ensures Append(a, Nil) == a
  {
    if a.Cons? { AppendNil(a.tail); }
  }

  lemma {:induction false} AppendAssoc<T>(a: List<T>, b: List<T>, c: List<T>)
    ensures Append(Append(a, b), c) == Append(a, Append(b, c))
  {
    if a.Cons? { AppendAssoc(a.tail, b, c); }
  }
}
