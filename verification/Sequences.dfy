/** Laws of concatenation, for use where the verifier has much else in sight. */
module Sequences {

  lemma NothingFirst<T>(a: seq<T>)
    ensures [] + a == a
  {
  }

  lemma NothingLast<T>(a: seq<T>)
    ensures a + [] == a
  {
  }

  lemma Associative<T>(a: seq<T>, b: seq<T>, c: seq<T>)
    ensures a + b + c == a + (b + c)
  {
  }

  lemma Associative3<T>(a: seq<T>, b: seq<T>, c: seq<T>, d: seq<T>)
    ensures a + b + c + d == a + (b + c + d)
  {
  }

  lemma Slices<T>(a: seq<T>, b: seq<T>, n: nat, p: nat)
    requires n <= |a| && p <= |a| - n
    ensures (a + b)[n..] == a[n..] + b && (a + b)[..n] == a[..n] && a[n + p..] == a[n..][p..]
  {
  }

  /** Elements added one by one are the sequence of them. */
  lemma Added2<T>(at: seq<T>, a: T, b: T, s: seq<T>)
    requires |s| == 2 && s[0] == a && s[1] == b
    ensures at + [a] + [b] == at + s
  {
  }

  lemma Added3<T>(at: seq<T>, a: T, b: T, c: T, s: seq<T>)
    requires |s| == 3 && s[0] == a && s[1] == b && s[2] == c
    ensures at + [a] + [b] + [c] == at + s
  {
  }

  lemma Added4<T>(at: seq<T>, a: T, b: T, c: T, d: T, s: seq<T>)
    requires |s| == 4 && s[0] == a && s[1] == b && s[2] == c && s[3] == d
    ensures at + [a] + [b] + [c] + [d] == at + s
  {
  }

  lemma Added5<T>(at: seq<T>, a: T, b: T, c: T, d: T, e: T, s: seq<T>)
    requires |s| == 5 && s[0] == a && s[1] == b && s[2] == c && s[3] == d && s[4] == e
    ensures at + [a] + [b] + [c] + [d] + [e] == at + s
  {
  }

  lemma Added6<T>(at: seq<T>, a: T, b: T, c: T, d: T, e: T, f: T, s: seq<T>)
    requires |s| == 6 && s[0] == a && s[1] == b && s[2] == c && s[3] == d && s[4] == e && s[5] == f
    ensures at + [a] + [b] + [c] + [d] + [e] + [f] == at + s
  {
  }
}
