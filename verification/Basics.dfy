module Options {
  datatype Option<+T> = None | Some(value: T)
}

/** Names of services; the program compares and hashes them byte by byte. */
module Names {
  datatype Name = Name(text: string)
}

/** Division facts that the verifier does not find by itself. */
module Numbers {

  lemma AtLeastOnce(d: int, m: int)
    requires m > 0
    ensures d >= 1 ==> d * m >= m
  {
    if d >= 1 {
      assert (d - 1) * m >= 0;
    }
  }

  /** Quotient and remainder are unique. */
  lemma Remainder(x: int, m: int, k: int, r: int)
    requires m > 0 && x == k * m + r && 0 <= r < m
    ensures x % m == r
  {
    var d := x / m - k;
    assert x % m == r - d * m;
    assert -m < d * m < m;
    AtLeastOnce(d, m);
    AtLeastOnce(-d, m);
    assert (-d) * m == -(d * m);
  }
}
