/**
 * Keys that are only available up to a boot level: each level's key is derived from the one before,
 * and keys below the current level are dropped.
 */
module BootLevelKeys {
  import opened Tables

  const HKDF_KEY_SIZE: nat := 32
  const AES_256_KEY_LENGTH: nat := 32

  /** "Advance KDF one step" */
  const HKDF_ADVANCE: Bytes := [65, 100, 118, 97, 110, 99, 101, 32, 75, 68, 70, 32, 111, 110, 101, 32, 115, 116, 101, 112]

  /** "Generate AES-256-GCM key" */
  const HKDF_AES: Bytes := [71, 101, 110, 101, 114, 97, 116, 101, 32, 65, 69, 83, 45, 50, 53, 54, 45, 71, 67, 77, 32, 107, 101, 121]

  /** HKDF-Expand with a given output length, key and info, whatever function that is. */
  type Hkdf = (nat, Bytes, Bytes) -> Bytes

  /** The key of a level: as many steps from the level zero key. */
  function LevelKey(hkdf: Hkdf, zero: Bytes, level: nat): Bytes {
    if level == 0 then zero else hkdf(HKDF_KEY_SIZE, LevelKey(hkdf, zero, level - 1), HKDF_ADVANCE)
  }

  function AesKeyOf(hkdf: Hkdf, zero: Bytes, level: nat): Bytes {
    hkdf(AES_256_KEY_LENGTH, LevelKey(hkdf, zero, level), HKDF_AES)
  }

  // ---------- What callers can observe ----------

  /** The least accessible level, or none at all. */
  datatype Floor = Floor(level: nat) | Closed

  predicate Accessible(floor: Floor, level: nat) {
    floor.Floor? && level >= floor.level
  }

  /** A call, and for an advance whether it succeeded; it fails if a derivation does. */
  datatype Op = Advance(level: nat, ok: bool) | Finish | Ask(level: nat)

  function After(floor: Floor, op: Op): Floor {
    match op
    case Advance(level, ok) => if ok && Accessible(floor, level) then Floor(level) else floor
    case Finish => Closed
    case Ask(_) => floor
  }

  function AfterAll(ops: seq<Op>): Floor {
    if ops == [] then Floor(0) else After(AfterAll(ops[..|ops| - 1]), ops[|ops| - 1])
  }

  /**
   * After any sequence of calls, with any failures, a level is accessible exactly if no call finished
   * the cache and no call that succeeded advanced beyond the level. Advances that fail or try to go
   * back, and queries, have no effect.
   */
  lemma {:induction false} AccessibleExactly(ops: seq<Op>, level: nat)
    ensures Accessible(AfterAll(ops), level) <==> forall op :: op in ops ==> !op.Finish? && (op.Advance? && op.ok ==> op.level <= level)
    ensures AfterAll(ops).Closed? <==> Finish in ops
    ensures AfterAll(ops).Floor? && AfterAll(ops).level > 0 ==> Advance(AfterAll(ops).level, true) in ops
  {
    if ops != [] {
      var before, last := ops[..|ops| - 1], ops[|ops| - 1];
      AccessibleExactly(before, level);
      if last.Advance? && last.ok {
        AccessibleExactly(before, last.level);
      }
      assert ops == before + [last];
      assert forall op :: op in ops <==> op in before || op == last;
    }
  }

  // ---------- The cache ----------

  class BootLevelKeyCache {
    var current: nat
    var cache: seq<Bytes>
    const hkdf: Hkdf
    ghost const zero: Bytes

    /** Entry `i` of the cache is the key of level `i + current`; nothing below `current` is kept. */
    ghost predicate Valid()
      reads this
    {
      forall i :: 0 <= i < |cache| ==> cache[i] == LevelKey(hkdf, zero, current + i)
    }

    ghost function View(): Floor
      reads this
    {
      if cache == [] then Closed else Floor(current)
    }

    constructor (hkdf: Hkdf, levelZeroKey: Bytes)
      ensures Valid() && View() == Floor(0) && zero == levelZeroKey && this.hkdf == hkdf
    {
      this.hkdf, zero := hkdf, levelZeroKey;
      current, cache := 0, [levelZeroKey];
    }

    predicate LevelAccessible(level: nat)
      reads this
      ensures LevelAccessible(level) <==> Accessible(View(), level)
    {
      level >= current && cache != []
    }

    /** `budget` is how many derivations succeed before one fails. What was derived until then stays. */
    method GetHkdfKey(level: nat, budget: nat) returns (r: Result<Option<Bytes>>)
      requires Valid()
      modifies `cache
      ensures Valid() && View() == old(View()) && old(cache) <= cache
      ensures !Accessible(View(), level) ==> r == Ok(None) && cache == old(cache)
      ensures Accessible(View(), level) ==>
        && r == (if level < current + |old(cache)| + budget then Ok(Some(LevelKey(hkdf, zero, level))) else Err(System))
        && (r.Ok? ==> |cache| > level - current)
    {
      if !LevelAccessible(level) {
        return Ok(None);
      }
      var firstNotCached := current + |cache|;
      var n := firstNotCached;
      while n <= level
        invariant n == current + |cache| && firstNotCached <= n && (n <= level + 1 || n == firstNotCached)
        invariant n <= firstNotCached + budget
        invariant Valid() && cache != [] && old(cache) <= cache
      {
        if n - firstNotCached == budget {
          return Err(System);
        }
        var highest := cache[|cache| - 1];
        cache := cache + [hkdf(HKDF_KEY_SIZE, highest, HKDF_ADVANCE)];
        n := n + 1;
      }
      r := Ok(Some(cache[level - current]));
    }

    method AdvanceBootLevel(level: nat, budget: nat) returns (r: Result<()>)
      requires Valid()
      modifies this
      ensures Valid()
      ensures View() == After(old(View()), Advance(level, r.Ok?))
      ensures r.Err? <==> Accessible(old(View()), level) && level >= old(current + |cache|) + budget
    {
      if !LevelAccessible(level) {
        return Ok(());
      }
      var got := GetHkdfKey(level, budget);
      if got.Err? {
        return Err(got.error);
      }
      cache := cache[level - current..];
      current := level;
      r := Ok(());
    }

    method Finish()
      requires Valid()
      modifies this
      ensures Valid() && View() == After(old(View()), Op.Finish)
    {
      cache := [];
    }

    /** The key of a level does not depend on how it was reached; `expands` is whether the last derivation succeeds. */
    method AesKey(level: nat, budget: nat, expands: bool) returns (r: Result<Option<Bytes>>)
      requires Valid()
      modifies `cache
      ensures Valid() && View() == After(old(View()), Ask(level))
      ensures !Accessible(View(), level) <==> r == Ok(None)
      ensures r.Ok? && r.value.Some? ==> r.value.value == AesKeyOf(hkdf, zero, level)
      ensures Accessible(View(), level) ==> (r.Ok? <==> expands && level < current + |old(cache)| + budget)
    {
      var key := GetHkdfKey(level, budget);
      if key.Err? {
        return Err(key.error);
      }
      if key.value.None? {
        return Ok(None);
      }
      if !expands {
        return Err(System);
      }
      r := Ok(Some(hkdf(AES_256_KEY_LENGTH, key.value.value, HKDF_AES)));
    }
  }
}
