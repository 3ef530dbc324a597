/** What the tuner hardware reports about one frequency, and the desense filter of fmr_core.cpp.
    The driver calls (soft-mute tune, desense check) are oracles: any reading may come back. */
module Reading {

  /** One soft-mute probe: whether the driver call succeeded, its validity flag and signal
      strength, and what the driver's desense check says about that frequency and strength. */
  datatype Reading = Reading(ok: bool, valid: bool, rssi: int, desense: bool)

  /** An entry of the chip's fake-channel table. */
  datatype FakeChannel = FakeChannel(freq: int, threshold: int)

  /** The first table entry for the frequency decides, and only that one. */
  predicate Severe(fakes: seq<FakeChannel>, freq: int, rssi: int) {
    exists k :: 0 <= k < |fakes| && fakes[k].freq == freq && rssi < fakes[k].threshold
                && forall j :: 0 <= j < k ==> fakes[j].freq != freq
  }

  /** FMR_SevereDensense: linear search that breaks at the first entry for the frequency. */
  method SevereDesense(fakes: seq<FakeChannel>, freq: int, rssi: int) returns (severe: bool)
    ensures severe == Severe(fakes, freq, rssi)
  {
    for i := 0 to |fakes|
      invariant forall j :: 0 <= j < i ==> fakes[j].freq != freq
    {
      if freq == fakes[i].freq {
        return rssi < fakes[i].threshold;
      }
    }
    return false;
  }

  /** A channel the search may report: probed, valid, not desensed, not severely desensed. */
  predicate Acceptable(fakes: seq<FakeChannel>, freq: int, r: Reading) {
    r.ok && r.valid && !r.desense && !Severe(fakes, freq, r.rssi)
  }

  /** C integer division by a positive divisor: the quotient is truncated toward zero. */
  function TruncDiv(a: int, b: int): int
    requires b > 0
  {
    if a >= 0 then a / b else -((-a) / b)
  }

  lemma TruncDivMeans(a: int, b: int)
    requires b > 0
    ensures var q := TruncDiv(a, b);
            && (a >= 0 ==> 0 <= q && q * b <= a < q * b + b)
            && (a <= 0 ==> q <= 0 && q * b - b < a <= q * b)
  {
  }

  /** The table read from its front: the first entry decides if it is for the frequency, else the rest. */
  lemma SevereFront(fakes: seq<FakeChannel>, freq: int, rssi: int)
    ensures Severe(fakes, freq, rssi) <==>
            fakes != [] && if fakes[0].freq == freq then rssi < fakes[0].threshold else Severe(fakes[1..], freq, rssi)
  {
    if fakes != [] {
      var rest := fakes[1..];
      assert forall k :: 0 <= k < |rest| ==> rest[k] == fakes[k + 1];
      assert forall k :: 0 < k < |fakes| ==> fakes[k] == rest[k - 1];
    }
  }
}
