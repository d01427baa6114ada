/** Which samples a buffer still holds when it shares its counter with others: the common
    buffer or a worker's own, for any number of workers. */
module SampleLoss {

  import opened Bits
  import opened Samples

  lemma {:induction false} SlotShift(a: nat, d: nat, m: nat)
    requires m > 0
    ensures Slot(a + d, m) == Slot(a, m) <==> Slot(d, m) == 0
    decreases a + d
  {
    if d >= m {
      SlotShift(a, d - m, m);
      SlotPeriodic(a + (d - m), m);
    } else if a >= m {
      SlotShift(a - m, d, m);
      SlotPeriodic(a - m + d, m);
    }
  }

  lemma WholeLaps(gap: int, m: nat)
    requires m > 0 && gap % m == 0
    ensures (-gap) % m == 0
  {
    var q := gap / m;
    assert -gap == (-q) * m + 0;
    EuclideanUnique(-gap, m, -q, 0);
  }

  lemma EitherWay(gap: int, back: int, m: nat)
    requires m > 0 && back == -gap
    ensures gap % m == 0 <==> back % m == 0
  {
    if gap % m == 0 {
      WholeLaps(gap, m);
    } else if back % m == 0 {
      WholeLaps(back, m);
    }
  }

  /** Two counts have the same slot exactly when whole laps lie between them. */
  lemma SameSlotExactly(a: nat, b: nat, m: nat)
    requires m > 0
    ensures Slot(a, m) == Slot(b, m) <==> (b - a) % m == 0
  {
    if a <= b {
      Later(a, b, b - a, m);
    } else {
      Later(b, a, a - b, m);
      EitherWay(a - b, b - a, m);
    }
  }

  lemma Later(a: nat, b: nat, gap: nat, m: nat)
    requires m > 0 && gap == b - a
    ensures Slot(a, m) == Slot(b, m) <==> gap % m == 0
  {
    SlotShift(a, gap, m);
    SlotIsMod(gap, m);
  }

  /** The counter's way from sample `j` to sample `k`. */
  function Gap(spots: seq<nat>, most: nat, j: nat, k: nat): int
    requires j < |spots| && k < |spots|
  {
    Way(k, spots, most) - Way(j, spots, most)
  }

  /** The way is a whole number of laps. */
  predicate Collide(spots: seq<nat>, most: nat, j: nat, k: nat)
    requires most > 0 && j < |spots| && k < |spots|
  {
    Gap(spots, most, j, k) % most == 0
  }

  /** Two samples go to the same place exactly when whole laps lie between them. */
  lemma SamePlaceExactly(spots: seq<nat>, most: nat, j: nat, k: nat)
    requires most > 0 && j < |spots| && k < |spots|
    ensures Place(k, spots, most) == Place(j, spots, most) <==> Collide(spots, most, j, k)
  {
    SameSlotExactly(Way(j, spots, most), Way(k, spots, most), most);
  }

  // ---- What one sample replaces.

  /** Sample `k` goes to the place where sample `j` still is. */
  ghost predicate Replaces(spots: seq<nat>, most: nat, j: nat, k: nat)
    requires j < k < |spots|
  {
    && Place(k, spots, most) == Place(j, spots, most)
    && forall i :: j < i < k ==> Place(i, spots, most) != Place(k, spots, most)
  }

  lemma ReplacesExactly(spots: seq<nat>, most: nat, j: nat, k: nat)
    requires most > 0 && j < k < |spots|
    ensures Replaces(spots, most, j, k)
            <==> Collide(spots, most, j, k) && forall i :: j < i < k ==> !Collide(spots, most, i, k)
  {
    forall i | j <= i < k
      ensures Place(i, spots, most) == Place(k, spots, most) <==> Collide(spots, most, i, k)
    {
      SamePlaceExactly(spots, most, i, k);
    }
  }

  /** How far others have put the counter ahead of a buffer's own samples. */
  function Ahead(k: nat, spots: seq<nat>, most: nat): int
    requires k < |spots|
  {
    Way(k, spots, most) - k
  }

  /** A sample replaces the one a full lap before it exactly when others have advanced the
      counter by whole laps since, and not on the way to any sample in between. */
  lemma ReplacesOldestExactly(spots: seq<nat>, most: nat, k: nat)
    requires most > 0 && most <= k < |spots|
    ensures Replaces(spots, most, k - most, k)
            <==> (Ahead(k, spots, most) - Ahead(k - most, spots, most)) % most == 0
                 && forall i :: k - most < i < k ==> !Collide(spots, most, i, k)
  {
    ReplacesExactly(spots, most, k - most, k);
    LapMore(Ahead(k, spots, most) - Ahead(k - most, spots, most), most);
  }

  lemma LapMore(d: int, m: nat)
    requires m > 0
    ensures (d + m) % m == d % m
  {
    EuclideanUnique(d + m, m, d / m + 1, d % m);
  }

  // ---- What the buffer keeps.

  /** The first of the last `most` samples. */
  function First(spots: seq<nat>, most: nat): nat {
    |spots| - Kept(|spots|, most)
  }

  /** The buffer holds the last `most` samples. */
  ghost predicate KeepsLast(spots: seq<nat>, most: nat) {
    forall k :: First(spots, most) <= k < |spots| ==> IsLatest(k, spots, most)
  }

  ghost predicate NoneCollide(spots: seq<nat>, most: nat)
    requires most > 0
  {
    forall j, k :: First(spots, most) <= j < k < |spots| ==> !Collide(spots, most, j, k)
  }

  /** However many workers there are, in the common buffer and in their own: the last
      samples are held exactly when no two of them have whole laps of the counter
      between them. */
  lemma KeepsLastExactly(spots: seq<nat>, most: nat)
    requires most > 0
    ensures KeepsLast(spots, most) <==> NoneCollide(spots, most)
  {
    forall j, k | First(spots, most) <= j < k < |spots|
      ensures Place(k, spots, most) == Place(j, spots, most) <==> Collide(spots, most, j, k)
    {
      SamePlaceExactly(spots, most, j, k);
    }
    if KeepsLast(spots, most) {
      forall j, k | First(spots, most) <= j < k < |spots|
        ensures !Collide(spots, most, j, k)
      {
        assert IsLatest(j, spots, most);
      }
    }
  }

  /** What that means for the buffer's contents. */
  lemma KeptSamples(samples: seq<int>, log: seq<int>, spots: seq<nat>, most: nat, k: nat)
    requires most > 0 && Holds(samples, log, spots, most) && NoneCollide(spots, most)
    requires |log| - |samples| <= k < |log|
    ensures Place(k, spots, most) < |samples| && samples[Place(k, spots, most)] == log[k]
  {
    KeepsLastExactly(spots, most);
    assert IsLatest(k, spots, most);
  }

  // ---- One worker records everything.

  lemma SoloGap(spots: seq<nat>, most: nat, lead: nat, j: nat, k: nat)
    requires SoloSpots(spots, most, lead) && j < k < |spots|
    ensures Gap(spots, most, j, k) ==
            if k < most then k - j else if j < most then 2 * k - most + lead - j else 2 * (k - j)
  {
  }

  lemma NoLap(gap: int, most: int)
    requires 0 < gap < most || most < gap < 2 * most
    ensures gap % most != 0
  {
    if gap > most {
      assert gap % most == gap - most;
    }
  }

  lemma OneLap(gap: int, most: int)
    requires gap == most > 0
    ensures gap % most == 0
  {
  }

  /** With an odd limit, two laps on, and wherever nothing has been replaced yet. */
  lemma SoloClear(spots: seq<nat>, most: nat, lead: nat, j: nat, k: nat)
    requires SoloSpots(spots, most, lead) && First(spots, most) <= j < k < |spots|
    requires |spots| <= most || (most % 2 == 1 && |spots| >= 2 * most)
    ensures !Collide(spots, most, j, k)
  {
    SoloGap(spots, most, lead, j, k);
    NoLap(Gap(spots, most, j, k), most);
  }

  /** Two of the last samples that collide, when they do, in the common buffer. */
  lemma SoloCollision(spots: seq<nat>, most: nat) returns (j: nat, k: nat)
    requires SoloSpots(spots, most, 0) && |spots| >= most + 2
    requires most % 2 == 0 || |spots| < 2 * most
    ensures First(spots, most) <= j < k < |spots| && Collide(spots, most, j, k)
  {
    var m := |spots| - most;
    if m >= most || (m + 1 == most && m % 2 == 1) {
      j := if m >= most then m else most;
      k := j + most / 2;
    } else {
      var q := (m + 1) / 2;
      j, k := 2 * q, most + q;
    }
    SoloGap(spots, most, 0, j, k);
    OneLap(Gap(spots, most, j, k), most);
  }

  /** At any length: the last samples are kept exactly until one has been replaced, and
      then again, if the limit is odd, from two full laps on. */
  lemma SoloKeepsLastExactly(spots: seq<nat>, most: nat)
    requires SoloSpots(spots, most, 0)
    ensures KeepsLast(spots, most)
            <==> |spots| <= most + 1 || (most % 2 == 1 && |spots| >= 2 * most)
  {
    KeepsLastExactly(spots, most);
    if |spots| == most + 1 || |spots| <= most || (most % 2 == 1 && |spots| >= 2 * most) {
      forall j, k | First(spots, most) <= j < k < |spots|
        ensures !Collide(spots, most, j, k)
      {
        if |spots| == most + 1 {
          SoloGap(spots, most, 0, j, k);
          NoLap(Gap(spots, most, j, k), most);
        } else {
          SoloClear(spots, most, 0, j, k);
        }
      }
    } else {
      var j, k := SoloCollision(spots, most);
    }
  }

  /** The same in the worker's own buffer. */
  lemma OwnCollision(spots: seq<nat>, most: nat) returns (j: nat, k: nat)
    requires SoloSpots(spots, most, 2) && |spots| > most >= 2 && (most == 2 ==> |spots| > 3)
    requires most % 2 == 0 || |spots| < 2 * most
    ensures First(spots, most) <= j < k < |spots| && Collide(spots, most, j, k)
  {
    var m := |spots| - most;
    if m >= most || (m + 1 == most && m % 2 == 1) {
      j := if m >= most then m else most;
      k := j + most / 2;
    } else {
      var q := (m + 1) / 2;
      j, k := 2 * q, most + q - 1;
    }
    SoloGap(spots, most, 2, j, k);
    OneLap(Gap(spots, most, j, k), most);
  }

  /** The worker's own buffer writes two places further on, so already its first
      replacement is of a sample too young, unless the limit is at most 2. */
  lemma OwnKeepsLastExactly(spots: seq<nat>, most: nat)
    requires SoloSpots(spots, most, 2)
    ensures KeepsLast(spots, most)
            <==> |spots| <= most || (most % 2 == 1 && |spots| >= 2 * most) || (most == 2 && |spots| == 3)
  {
    KeepsLastExactly(spots, most);
    if |spots| <= most || (most % 2 == 1 && |spots| >= 2 * most) {
      forall j, k | First(spots, most) <= j < k < |spots|
        ensures !Collide(spots, most, j, k)
      {
        SoloClear(spots, most, 2, j, k);
      }
    } else if most == 2 && |spots| == 3 {
      SoloGap(spots, 2, 2, 1, 2);
    } else {
      var j, k := OwnCollision(spots, most);
    }
  }

  lemma {:induction false} SlotDouble(a: nat, h: nat)
    requires h > 0
    ensures Slot(2 * a, 2 * h) == 2 * Slot(a, h)
  {
    if a >= h {
      SlotDouble(a - h, h);
    }
  }

  lemma EvenPlaces(spots: seq<nat>, h: nat, lead: nat, j: nat)
    requires SoloSpots(spots, 2 * h, 2 * lead) && 2 * h <= j < |spots|
    ensures Place(j, spots, 2 * h) == 2 * Slot(j - h + lead, h)
  {
    SlotDouble(j - h + lead, h);
  }

  lemma OddIsLatest(spots: seq<nat>, h: nat, lead: nat, q: nat)
    requires SoloSpots(spots, 2 * h, 2 * lead) && q < h && 2 * q + 1 < |spots|
    ensures IsLatest(2 * q + 1, spots, 2 * h)
  {
    forall j | 2 * q + 1 < j < |spots|
      ensures Place(j, spots, 2 * h) != Place(2 * q + 1, spots, 2 * h)
    {
      if j >= 2 * h {
        EvenPlaces(spots, h, lead, j);
      }
    }
  }

  /** With an even limit the odd places of both buffers are never written again. */
  lemma StaleForever(samples: seq<int>, log: seq<int>, spots: seq<nat>, h: nat, lead: nat, q: nat)
    requires Holds(samples, log, spots, 2 * h) && SoloSpots(spots, 2 * h, 2 * lead)
    requires q < h && 2 * q + 1 < |log|
    ensures 2 * q + 1 < |samples| && samples[2 * q + 1] == log[2 * q + 1]
  {
    OddIsLatest(spots, h, lead, q);
  }
}
