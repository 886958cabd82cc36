/** Sampling passwords from a pool. The Mersenne Twister seeded from
    `os.urandom(128)` is not modelled: the generator's randomness is an
    abstract stream of pool indices, the k-th index being the pool position
    that the k-th draw of `random.choices` picks. Password `i` is built
    from draws `i * size` to `i * size + size - 1`, since every call of
    `random.choices(pool, k=size)` consumes `size` draws in order. */
module Sampling {

  /** The outcome of `random.seed(os.urandom(128))`: the entropy source
      raised `NotImplementedError` with a message, or the generator was
      seeded and will produce `draws`. */
  datatype Entropy = Unavailable(message: string) | Seeded(draws: seq<nat>)

  /** `draws` suffices for `count` passwords of `size` characters from
      `pool`: there are enough of them and each indexes the pool. */
  predicate Covers(draws: seq<nat>, pool: string, size: nat, count: nat)
  {
    count * size <= |draws| && forall k :: 0 <= k < |draws| ==> draws[k] < |pool|
  }

  /** Password `i` of a batch of `count` occupies draws inside the stream. */
  lemma SlotInStream(i: nat, j: nat, size: nat, count: nat)
    requires i < count && j <= size
    ensures i * size + j <= count * size
  {
    assert (i + 1) * size <= count * size by {
      MulLeft(i + 1, count, size);
    }
  }

  lemma MulLeft(a: nat, b: nat, c: nat)
    requires a <= b
    ensures a * c <= b * c
  {
  }

  /** Every character of `s` is a character of `pool`. */
  predicate AllIn(s: string, pool: string)
  {
    forall c :: c in s ==> c in pool
  }

  /** `''.join(random.choices(pool, k=size))` when the draws start at
      position `start` of the stream. */
  function Choices(pool: string, draws: seq<nat>, start: nat, size: nat): (r: string)
    requires start + size <= |draws|
    requires forall k :: 0 <= k < |draws| ==> draws[k] < |pool|
    ensures |r| == size
    ensures forall j :: 0 <= j < size ==> r[j] == pool[draws[start + j]]
    ensures AllIn(r, pool)
  {
    seq(size, j requires 0 <= j < size => pool[draws[start + j]])
  }

  /** The `count` passwords the generator builds from `draws`, as the list
      comprehension `[''.join(random.choices(pool, k=size)) for _ in
      range(count)]` builds them. */
  function Batch(pool: string, draws: seq<nat>, size: nat, count: nat): (r: seq<string>)
    requires Covers(draws, pool, size, count)
  {
    seq(count, i requires 0 <= i < count =>
      SlotInStream(i, size, size, count);
      Choices(pool, draws, i * size, size))
  }

  /** A batch has exactly `count` passwords of exactly `size` characters,
      and each character is the pool character at the matching draw; so
      every character belongs to the pool. */
  lemma BatchShape(pool: string, draws: seq<nat>, size: nat, count: nat)
    requires Covers(draws, pool, size, count)
    ensures |Batch(pool, draws, size, count)| == count
    ensures forall i :: 0 <= i < count ==>
      i * size + size <= |draws| && Batch(pool, draws, size, count)[i] == Choices(pool, draws, i * size, size)
    ensures forall i :: 0 <= i < count ==>
      |Batch(pool, draws, size, count)[i]| == size && AllIn(Batch(pool, draws, size, count)[i], pool)
  {
    forall i | 0 <= i < count
      ensures i * size + size <= |draws| && Batch(pool, draws, size, count)[i] == Choices(pool, draws, i * size, size)
      ensures |Batch(pool, draws, size, count)[i]| == size && AllIn(Batch(pool, draws, size, count)[i], pool)
    {
      PasswordAt(pool, draws, size, count, i);
    }
  }

  /** Password `i` of a batch reads draws `i * size` onwards. */
  lemma PasswordAt(pool: string, draws: seq<nat>, size: nat, count: nat, i: nat)
    requires Covers(draws, pool, size, count) && i < count
    ensures i * size + size <= |draws|
    ensures Batch(pool, draws, size, count)[i] == Choices(pool, draws, i * size, size)
    ensures AllIn(Batch(pool, draws, size, count)[i], pool)
  {
    SlotInStream(i, size, size, count);
  }

  /** Building one password fewer gives the batch without its last
      password: the batch grows one password at a time. */
  lemma BatchSnoc(pool: string, draws: seq<nat>, size: nat, count: nat)
    requires Covers(draws, pool, size, count + 1)
    ensures Covers(draws, pool, size, count)
    ensures count * size + size <= |draws|
    ensures Batch(pool, draws, size, count + 1)
      == Batch(pool, draws, size, count) + [Choices(pool, draws, count * size, size)]
  {
    SlotInStream(count, size, size, count + 1);
    assert count * size <= (count + 1) * size by {
      MulLeft(count, count + 1, size);
    }
  }

  /** The position of `c` in `pool`: the draw that picks `c`. */
  function IndexOf(pool: string, c: char): (r: nat)
    requires c in pool
    ensures r < |pool| && pool[r] == c
  {
    if pool[0] == c then 0 else 1 + IndexOf(pool[1..], c)
  }

  /** The draws that pick the characters of `password` in order. */
  function IndicesOf(pool: string, password: string): (r: seq<nat>)
    requires AllIn(password, pool)
    ensures |r| == |password|
    ensures forall j :: 0 <= j < |r| ==> r[j] < |pool| && pool[r[j]] == password[j]
  {
    seq(|password|, j requires 0 <= j < |password| => IndexOf(pool, password[j]))
  }

  /** A stream that makes the generator produce exactly `passwords`. */
  function DrawsFor(pool: string, passwords: seq<string>): (r: seq<nat>)
    requires forall i :: 0 <= i < |passwords| ==> AllIn(passwords[i], pool)
    ensures forall k :: 0 <= k < |r| ==> r[k] < |pool|
  {
    if |passwords| == 0 then []
    else IndicesOf(pool, passwords[0]) + DrawsFor(pool, passwords[1..])
  }

  lemma {:induction false} DrawsForLength(pool: string, passwords: seq<string>, size: nat)
    requires forall n :: 0 <= n < |passwords| ==> AllIn(passwords[n], pool) && |passwords[n]| == size
    ensures |DrawsFor(pool, passwords)| == |passwords| * size
  {
    if |passwords| > 0 {
      DrawsForLength(pool, passwords[1..], size);
      MulSucc(|passwords|, size);
    }
  }

  lemma MulSucc(i: nat, size: nat)
    requires i > 0
    ensures i * size == size + (i - 1) * size
  {
  }

  lemma {:induction false} DrawsForAt(pool: string, passwords: seq<string>, size: nat, i: nat, j: nat)
    requires forall n :: 0 <= n < |passwords| ==> AllIn(passwords[n], pool) && |passwords[n]| == size
    requires i < |passwords| && j < size
    ensures |DrawsFor(pool, passwords)| == |passwords| * size
    ensures i * size + j < |DrawsFor(pool, passwords)|
    ensures pool[DrawsFor(pool, passwords)[i * size + j]] == passwords[i][j]
  {
    DrawsForLength(pool, passwords, size);
    SlotInStream(i, j + 1, size, |passwords|);
    var first, rest := IndicesOf(pool, passwords[0]), DrawsFor(pool, passwords[1..]);
    assert DrawsFor(pool, passwords) == first + rest;
    if i > 0 {
      DrawsForAt(pool, passwords[1..], size, i - 1, j);
      MulSucc(i, size);
      assert passwords[1..][i - 1] == passwords[i];
    }
  }

  /** Every list of `count` passwords of `size` characters over the pool
      is some run of the generator: the sampler excludes no well-formed
      result. */
  lemma {:induction false} BatchReaches(pool: string, passwords: seq<string>, size: nat)
    requires forall i :: 0 <= i < |passwords| ==> AllIn(passwords[i], pool) && |passwords[i]| == size
    ensures Covers(DrawsFor(pool, passwords), pool, size, |passwords|)
    ensures Batch(pool, DrawsFor(pool, passwords), size, |passwords|) == passwords
  {
    var draws := DrawsFor(pool, passwords);
    DrawsForLength(pool, passwords, size);
    var b := Batch(pool, draws, size, |passwords|);
    BatchShape(pool, draws, size, |passwords|);
    forall i | 0 <= i < |passwords| ensures b[i] == passwords[i] {
      forall j | 0 <= j < size ensures b[i][j] == passwords[i][j] {
        DrawsForAt(pool, passwords, size, i, j);
      }
    }
  }
}
