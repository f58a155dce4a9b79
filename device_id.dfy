/**
 * The anonymous device id kept in the browser under `device_id`: read it
 * when a usable one is stored, otherwise make a new UUID and store it.
 * Randomness and `crypto.randomUUID` are parameters.
 */
module DeviceId {
  import opened Wrappers
  import opened RequestHelpers

  /** A stored value the reader accepts: present, non-empty, and not the texts "undefined" or "null". */
  predicate Usable(item: Option<string>) {
    item.Some? && item.value != "" && item.value != "undefined" && item.value != "null"
  }

  /** Hyphen positions of the fallback id. */
  predicate IsHyphenPosition(i: int) {
    i == 8 || i == 13 || i == 18 || i == 23
  }

  /**
   * The layout of a fallback id: 36 characters, hyphens at 8, 13, 18 and 23,
   * the version digit `4` at 14, one of `8`, `9`, `a`, `b` at 19 and
   * lowercase hexadecimal digits elsewhere.
   */
  predicate UuidV4Layout(s: string) {
    |s| == 36
    && (forall i | 0 <= i < 36 && IsHyphenPosition(i) :: s[i] == '-')
    && s[14] == '4'
    && s[19] in "89ab"
    && (forall i | 0 <= i < 36 && !IsHyphenPosition(i) :: IsHexDigit(s[i]))
  }

  /** The random draws `Math.floor(Math.random() * 16)`, one per position. */
  predicate Draws(digits: seq<nat>) {
    |digits| == 36 && forall i | 0 <= i < 36 :: digits[i] < 16
  }

  /** The character the fallback generator leaves at position `i`. */
  function FallbackChar(digits: seq<nat>, i: nat): char
    requires Draws(digits) && i < 36
  {
    if IsHyphenPosition(i) then '-'
    else if i == 14 then '4'
    else if i == 19 then HexDigit(digits[19] % 4 + 8)
    else HexDigit(digits[i])
  }

  /** The id the fallback generator makes from its draws. */
  function FallbackOf(digits: seq<nat>): (s: string)
    requires Draws(digits)
    ensures UuidV4Layout(s)
  {
    var s := seq(36, i requires 0 <= i < 36 => FallbackChar(digits, i));
    assert s[19] == HexDigit(digits[19] % 4 + 8);
    s
  }

  /** Every draw outside the fixed positions shows through: the fallback loses no randomness there. */
  lemma FallbackKeepsDraws(digits: seq<nat>, i: int)
    requires Draws(digits) && 0 <= i < 36 && !IsHyphenPosition(i) && i != 14 && i != 19
    ensures HexValue(FallbackOf(digits)[i]) == digits[i]
  {
    var c := FallbackOf(digits)[i];
    assert HexDigit(digits[i]) == c;
    assert HexDigit(HexValue(c)) == c;
    HexDigitInjective(digits[i], HexValue(c));
  }

  lemma HexDigitInjective(a: nat, b: nat)
    requires a < 16 && b < 16 && HexDigit(a) == HexDigit(b)
    ensures a == b
  {
  }

  /** `generateFallbackUuid`: fills 36 slots from the draws, then fixes the version, the variant and the hyphens. */
  method FallbackUuid(digits: seq<nat>) returns (s: string)
    requires Draws(digits)
    ensures s == FallbackOf(digits)
  {
    var slots := new char[36];
    for i := 0 to 36
      invariant forall j | 0 <= j < i :: slots[j] == HexDigit(digits[j])
    {
      slots[i] := HexDigit(digits[i]);
    }
    slots[14] := '4';
    slots[19] := HexDigit(HexValue(slots[19]) % 4 + 8);
    slots[8] := '-';
    slots[13] := '-';
    slots[18] := '-';
    slots[23] := '-';
    s := slots[..];
    assert forall i | 0 <= i < 36 :: s[i] == FallbackChar(digits, i);
  }

  /** A fallback id is one the reader accepts on the next visit. */
  lemma FallbackUsable(digits: seq<nat>)
    requires Draws(digits)
    ensures Usable(Some(FallbackOf(digits)))
  {
    var s := FallbackOf(digits);
    assert s[8] == '-';
    assert "undefined"[8] != '-';
  }

  /** The browser's storage slot for the id. */
  class DeviceStore {
    var item: Option<string>

    constructor(item: Option<string>)
      ensures this.item == item
    {
      this.item := item;
    }

    /**
     * `getOrCreateDeviceId`. `randomUuid` is `crypto.randomUUID()` when it
     * exists (a 36-character id); `getThrows` and `setThrows` say that
     * reading or writing storage throws, which the `catch` answers with a
     * fresh fallback id made from `catchDraws`, storing nothing.
     */
    method GetOrCreate(randomUuid: Option<string>, draws: seq<nat>, catchDraws: seq<nat>,
                       getThrows: bool, setThrows: bool) returns (id: string)
      requires randomUuid.Some? ==> |randomUuid.value| == 36
      requires Draws(draws) && Draws(catchDraws)
      modifies this
      ensures getThrows ==> id == FallbackOf(catchDraws) && item == old(item)
      ensures !getThrows && Usable(old(item)) ==> id == old(item).value && item == old(item)
      ensures !getThrows && !Usable(old(item)) && setThrows ==> id == FallbackOf(catchDraws) && item == old(item)
      ensures !getThrows && !Usable(old(item)) && !setThrows ==>
                id == (if randomUuid.Some? then randomUuid.value else FallbackOf(draws)) && item == Some(id)
      ensures !getThrows && !setThrows ==> Usable(item) && id == item.value
    {
      if getThrows {
        id := FallbackUuid(catchDraws);
        return;
      }
      var existing := item;
      if Usable(existing) {
        return existing.value;
      }
      var newId: string;
      if randomUuid.Some? {
        newId := randomUuid.value;
      } else {
        newId := FallbackUuid(draws);
        FallbackUsable(draws);
      }
      if setThrows {
        id := FallbackUuid(catchDraws);
        return;
      }
      item := Some(newId);
      id := newId;
    }
  }

  /** Once an id is stored, every later call that can read storage answers that same id and keeps it. */
  method StableAcrossCalls(store: DeviceStore, randomUuid: Option<string>, draws: seq<nat>, catchDraws: seq<nat>)
      returns (first: string, second: string)
    requires randomUuid.Some? ==> |randomUuid.value| == 36
    requires Draws(draws) && Draws(catchDraws)
    modifies store
    ensures first == second && store.item == Some(first)
  {
    first := store.GetOrCreate(randomUuid, draws, catchDraws, false, false);
    second := store.GetOrCreate(randomUuid, draws, catchDraws, false, false);
  }
}
