/** Vocabulary shared by every component of the model. */
module Common {
  datatype Option<+T> = None | Some(value: T)

  datatype Result<+T, +E> = Ok(value: T) | Err(error: E)

  /** Conflicts after which `append_with_seq_retry` stops trying again. */
  const SEQ_CONFLICT_RETRIES: nat := 8

  /** `at` are indices into a list of `n`, going up. */
  ghost predicate Climbs(at: seq<nat>, n: nat) {
    && (forall k :: 0 <= k < |at| ==> at[k] < n)
    && forall k, l :: 0 <= k < l < |at| ==> at[k] < at[l]
  }

  lemma ClimbOneMore(at: seq<nat>, n: nat)
    requires Climbs(at, n)
    ensures Climbs(at, n + 1) && Climbs(at + [n], n + 1)
  {
  }

  /** The number a text of decimal digits stands for, read from its end. */
  function Numeral(s: string): nat {
    if s == "" then 0
    else
      var c := s[|s| - 1];
      10 * Numeral(s[..|s| - 1]) + if '0' <= c <= '9' then c as int - '0' as int else 0
  }
}
