// What every model uses.
module Common {

  datatype Option<T> = None | Some(value: T)

  lemma Associate<T>(a: seq<T>, b: seq<T>, c: seq<T>)
    ensures a + b + c == a + (b + c)
  {}

  lemma LessAfterScaling(a: real, b: real, c: real)
    requires a < b && c > 0.0
    ensures a * c < b * c
  {}

  lemma AtMostAfterScaling(a: real, b: real, c: real)
    requires a * c <= b * c && c > 0.0
    ensures a <= b
  {
    if b < a {
      LessAfterScaling(b, a, c);
    }
  }
}
