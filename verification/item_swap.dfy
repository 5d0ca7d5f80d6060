/** Gear swaps: two sets of items that trade places slot by slot, and the stats each swap adds. */
module ItemSwaps {

  const SLOTS: nat := 17

  /** An item and what it adds to a stat. */
  datatype Item = Item(id: int, stat: real)

  datatype SwapSet = Main | Swap1

  predicate IsWeapon(slot: nat) {
    slot == 14 || slot == 15 || slot == 16
  }

  function Stats(equipment: seq<Item>): real {
    if equipment == [] then 0.0 else equipment[0].stat + Stats(equipment[1..])
  }

  /** An item's own stat, and for two lots of equipment what each adds. */
  lemma {:induction false} StatsAdd(a: seq<Item>, b: seq<Item>)
    ensures Stats(a + b) == Stats(a) + Stats(b)
    ensures |a| == 1 ==> Stats(a) == a[0].stat
  {
    if a == [] {
      assert a + b == b;
    } else {
      assert (a + b)[1..] == a[1..] + b;
      StatsAdd(a[1..], b);
    }
  }

  /** Stats are added slot by slot, so what a change adds does not depend on the other slots. */
  lemma {:induction false} SameDifference(a: seq<Item>, b: seq<Item>, c: seq<Item>, d: seq<Item>)
    requires |a| == |b| == |c| == |d|
    requires forall i :: 0 <= i < |a| ==> a[i].stat - b[i].stat == c[i].stat - d[i].stat
    ensures Stats(a) - Stats(b) == Stats(c) - Stats(d)
  {
    if a != [] {
      SameDifference(a[1..], b[1..], c[1..], d[1..]);
    }
  }

  /** The equipment with some slots taken from the other set. */
  function Replaced(original: seq<Item>, swap: seq<Item>, slots: seq<nat>, weaponsOnly: bool): (r: seq<Item>)
    requires |original| == |swap|
    ensures |r| == |original|
    ensures forall i :: 0 <= i < |r| ==> r[i] == if i in slots && (weaponsOnly ==> IsWeapon(i)) then swap[i] else original[i]
  {
    seq(|original|, i requires 0 <= i < |original| => if i in slots && (weaponsOnly ==> IsWeapon(i)) then swap[i] else original[i])
  }

  /** What swapping all slots, or the weapons alone, adds to the stats. */
  datatype Offsets = Offsets(allSlots: real, weaponSlots: real)

  method CalcStatsOffset(original: seq<Item>, swap: seq<Item>, prepullBonus: real, slots: seq<nat>) returns (offsets: Offsets)
    requires |original| == |swap| == SLOTS && forall slot :: slot in slots ==> slot < SLOTS
    ensures offsets == OffsetsOf(original, swap, prepullBonus, slots)
  {
    var swapped, weapons := original, original;
    for k := 0 to |slots|
      invariant |swapped| == |weapons| == SLOTS
      invariant forall i :: 0 <= i < SLOTS ==> swapped[i] == if i in slots[..k] then swap[i] else original[i]
      invariant forall i :: 0 <= i < SLOTS ==> weapons[i] == if i in slots[..k] && IsWeapon(i) then swap[i] else original[i]
    {
      var slot := slots[k];
      assert slot in slots && slots[..k + 1] == slots[..k] + [slot];
      swapped := swapped[slot := swap[slot]];
      if IsWeapon(slot) {
        weapons := weapons[slot := swap[slot]];
      }
    }
    assert slots[..|slots|] == slots;
    assert swapped == Replaced(original, swap, slots, false);
    assert weapons == Replaced(original, swap, slots, true);
    offsets := Offsets(prepullBonus + (Stats(swapped) - Stats(original)), Stats(weapons) - Stats(original));
  }

  ghost function OffsetsOf(original: seq<Item>, swap: seq<Item>, prepullBonus: real, slots: seq<nat>): Offsets
    requires |original| == |swap|
  {
    Offsets(prepullBonus + (Stats(Replaced(original, swap, slots, false)) - Stats(original)),
            Stats(Replaced(original, swap, slots, true)) - Stats(original))
  }

  class ItemSwap {
    const slots: seq<nat>
    const originalEquip: seq<Item>
    const swapEquip: seq<Item>
    const offsets: Offsets
    const prepullBonus: real
    const equipment: array<Item>
    const unEquipped: array<Item>
    var swapSet: SwapSet
    var now: int
    var added: real
    /** Whether the armor was swapped when the pull came, or is swapped before it. */
    ghost var armorSwapped: bool

    ghost predicate Swapped(slot: nat)
      reads this
    {
      slot in slots && if IsWeapon(slot) then swapSet == Swap1 else armorSwapped
    }

    ghost predicate Shaped() {
      && |originalEquip| == |swapEquip| == equipment.Length == unEquipped.Length == SLOTS && equipment != unEquipped
      && (forall i, j :: 0 <= i < j < |slots| ==> slots[i] < slots[j]) && (forall slot :: slot in slots ==> slot < SLOTS)
      && offsets == OffsetsOf(originalEquip, swapEquip, prepullBonus, slots)
    }

    /** Each slot holds one item of the pair, the other being unequipped. */
    ghost predicate Paired(slot: nat)
      requires Shaped() && slot < SLOTS
      reads this, equipment, unEquipped
    {
      if Swapped(slot) then equipment[slot] == swapEquip[slot] && unEquipped[slot] == originalEquip[slot]
      else equipment[slot] == originalEquip[slot] && unEquipped[slot] == swapEquip[slot]
    }

    ghost predicate GearValid()
      reads this, equipment, unEquipped
    {
      && Shaped()
      && (forall slot: nat :: slot < SLOTS ==> Paired(slot))
      && (now < 0 ==> (armorSwapped <==> swapSet == Swap1))
    }

    /** The stats added so far are those of the items worn against the original ones, and the bonus for wearing
        the swapped armor. */
    ghost predicate Valid()
      reads this, equipment, unEquipped
    {
      GearValid() && added == Stats(equipment[..]) - Stats(originalEquip) + (if armorSwapped then prepullBonus else 0.0)
    }

    constructor (original: seq<Item>, swap: seq<Item>, slots: seq<nat>, prepullBonus: real, now: int)
      requires |original| == |swap| == SLOTS
      requires forall i, j :: 0 <= i < j < |slots| ==> slots[i] < slots[j]
      requires forall slot :: slot in slots ==> slot < SLOTS
      ensures Valid() && swapSet == Main && !armorSwapped && equipment[..] == original && this.slots == slots
      ensures originalEquip == original && swapEquip == swap && this.prepullBonus == prepullBonus && this.now == now
      ensures fresh(equipment) && fresh(unEquipped)
    {
      var off := CalcStatsOffset(original, swap, prepullBonus, slots);
      this.slots, originalEquip, swapEquip, offsets, this.prepullBonus := slots, original, swap, off, prepullBonus;
      var worn := new Item[SLOTS](i requires 0 <= i < SLOTS => original[i]);
      var spare := new Item[SLOTS](i requires 0 <= i < SLOTS => swap[i]);
      equipment, unEquipped := worn, spare;
      swapSet, this.now, added, armorSwapped := Main, now, 0.0, false;
      new;
      assert equipment[..] == original;
    }

    method SwapItem(slot: nat, isReset: bool)
      requires Shaped() && slot < SLOTS
      modifies equipment, unEquipped
      ensures equipment[..] == old(equipment[..])[slot := if isReset then originalEquip[slot] else old(unEquipped[slot])]
      ensures unEquipped[..] == old(unEquipped[..])[slot := old(equipment[slot])]
    {
      var oldItem := equipment[slot];
      if isReset {
        equipment[slot] := originalEquip[slot];
      } else {
        equipment[slot] := unEquipped[slot];
      }
      unEquipped[slot] := oldItem;
    }

    /** Which slots a swap touches: armor only before the pull or at a reset. */
    predicate Touched(slot: nat, isPrepull: bool, isReset: bool)
    {
      slot in slots && (IsWeapon(slot) || isReset || isPrepull)
    }

    /** A slot whose items traded places, at a reset for the original one, or stayed. */
    ghost predicate Traded(slot: nat, touched: bool, isReset: bool, worn: seq<Item>, spare: seq<Item>, worn': seq<Item>, spare': seq<Item>)
      requires |originalEquip| == |worn| == |spare| == |worn'| == |spare'| == SLOTS && slot < SLOTS
    {
      if touched then worn'[slot] == (if isReset then originalEquip[slot] else spare[slot]) && spare'[slot] == worn[slot]
      else worn'[slot] == worn[slot] && spare'[slot] == spare[slot]
    }

    method SwapSlots(isPrepull: bool, isReset: bool) returns (weaponsChanged: bool)
      requires Shaped()
      modifies equipment, unEquipped
      ensures forall slot: nat :: slot < SLOTS ==>
                Traded(slot, Touched(slot, isPrepull, isReset), isReset, old(equipment[..]), old(unEquipped[..]), equipment[..], unEquipped[..])
      ensures weaponsChanged <==> exists slot: nat :: IsWeapon(slot) && slot < SLOTS && equipment[slot].id != old(equipment[slot].id)
    {
      var main, off, ranged := equipment[14].id, equipment[15].id, equipment[16].id;
      ghost var worn, spare := equipment[..], unEquipped[..];
      for k := 0 to |slots|
        invariant forall slot: nat :: slot < SLOTS ==>
                    Traded(slot, slot in slots[..k] && (IsWeapon(slot) || isReset || isPrepull), isReset, worn, spare, equipment[..], unEquipped[..])
      {
        var slot := slots[k];
        assert slot in slots && slots[..k + 1] == slots[..k] + [slot];
        assert slot !in slots[..k] by {
          forall j | 0 <= j < k ensures slots[j] != slot {
            assert slots[j] < slots[k];
          }
        }
        assert Traded(slot, false, isReset, worn, spare, equipment[..], unEquipped[..]);
        if IsWeapon(slot) || isReset || isPrepull {
          SwapItem(slot, isReset);
        }
      }
      assert slots[..|slots|] == slots;
      weaponsChanged := equipment[14].id != main || equipment[15].id != off || equipment[16].id != ranged;
      assert IsWeapon(14) && IsWeapon(15) && IsWeapon(16);
    }

    /** A swap to a set: not to the one already worn.  Before the pull it trades all slots, after it the weapons
        alone, and the stats follow what is worn. */
    method SwapItems(at: int, set': SwapSet) returns (weaponsChanged: bool)
      requires Valid() && now <= at
      modifies this, equipment, unEquipped
      ensures Valid() && now == at && swapSet == set'
      ensures armorSwapped == if at < 0 then set' == Swap1 else old(armorSwapped)
      ensures weaponsChanged <==> exists slot: nat :: IsWeapon(slot) && slot < SLOTS && equipment[slot].id != old(equipment[slot].id)
      ensures old(swapSet) == set' ==> equipment[..] == old(equipment[..]) && added == old(added)
    {
      if swapSet == set' {
        now := at;
        forall slot: nat | slot < SLOTS ensures Paired(slot) {
          assert old(Paired(slot));
        }
        return false;
      }
      var isPrepull := at < 0;
      weaponsChanged := SwapSlots(isPrepull, false);
      var statsToSwap := if isPrepull then offsets.allSlots else offsets.weaponSlots;
      if swapSet == Swap1 {
        statsToSwap := -statsToSwap;
      }
      forall slot: nat | slot < SLOTS
        ensures Touched(slot, isPrepull, false) ==>
                  if swapSet == Swap1 then old(equipment[..])[slot] == swapEquip[slot] && equipment[..][slot] == originalEquip[slot]
                  else old(equipment[..])[slot] == originalEquip[slot] && equipment[..][slot] == swapEquip[slot]
      {
        assert old(Paired(slot)) && Traded(slot, Touched(slot, isPrepull, false), false, old(equipment[..]), old(unEquipped[..]), equipment[..], unEquipped[..]);
      }
      StatsFollow(old(equipment[..]), equipment[..], isPrepull);
      added := added + statsToSwap;
      now, swapSet := at, set';
      if isPrepull {
        armorSwapped := set' == Swap1;
      }
      forall slot: nat | slot < SLOTS ensures Paired(slot) {
        assert old(Paired(slot)) && Traded(slot, Touched(slot, isPrepull, false), false, old(equipment[..]), old(unEquipped[..]), equipment[..], unEquipped[..]);
      }
    }

    /** Trading the touched slots between the sets adds the offset computed from the original equipment, whatever
        is worn in the other slots. */
    lemma StatsFollow(before: seq<Item>, after: seq<Item>, isPrepull: bool)
      requires Shaped() && |before| == |after| == SLOTS
      requires forall slot: nat :: slot < SLOTS && !Touched(slot, isPrepull, false) ==> after[slot] == before[slot]
      requires forall slot: nat :: slot < SLOTS && Touched(slot, isPrepull, false) ==>
                 if swapSet == Swap1 then before[slot] == swapEquip[slot] && after[slot] == originalEquip[slot]
                 else before[slot] == originalEquip[slot] && after[slot] == swapEquip[slot]
      ensures var offset := (if isPrepull then offsets.allSlots - prepullBonus else offsets.weaponSlots);
              Stats(after) - Stats(before) == if swapSet == Swap1 then -offset else offset
    {
      var replaced := Replaced(originalEquip, swapEquip, slots, !isPrepull);
      if swapSet == Swap1 {
        SameDifference(after, before, originalEquip, replaced);
      } else {
        SameDifference(after, before, replaced, originalEquip);
      }
    }

    /** The end of an iteration: everything original is worn again and the swap set is whole.  The stats the
        swaps added are taken back, except those of armor that stayed swapped into the fight: they are left for
        the rebuild of the character's stats. */
    method Reset() returns (left: real)
      requires Valid()
      modifies this, equipment, unEquipped
      ensures GearValid() && swapSet == Main && !armorSwapped && now == old(now)
      ensures equipment[..] == originalEquip && unEquipped[..] == swapEquip
      ensures left == added
      ensures left == if old(armorSwapped) && now >= 0 then offsets.allSlots - offsets.weaponSlots else 0.0
    {
      var isPrepull := now < 0;
      ghost var before := equipment[..];
      var changed := SwapSlots(isPrepull, true);
      if swapSet != Main {
        added := added - (if isPrepull then offsets.allSlots else offsets.weaponSlots);
      }
      forall slot: nat | slot < SLOTS
        ensures before[slot] == if old(Swapped(slot)) then swapEquip[slot] else originalEquip[slot]
        ensures equipment[slot] == originalEquip[slot]
      {
        assert old(Paired(slot)) && Traded(slot, Touched(slot, isPrepull, true), true, before, old(unEquipped[..]), equipment[..], unEquipped[..]);
      }
      LeftOver(before);
      swapSet, armorSwapped := Main, false;
      forall i | 0 <= i < SLOTS {
        unEquipped[i] := swapEquip[i];
      }
      left := added;
      assert equipment[..] == originalEquip && unEquipped[..] == swapEquip;
    }

    /** What is worn, against the original equipment. */
    lemma LeftOver(worn: seq<Item>)
      requires Shaped() && |worn| == SLOTS && (now < 0 ==> (armorSwapped <==> swapSet == Swap1))
      requires forall slot: nat :: slot < SLOTS ==> worn[slot] == if Swapped(slot) then swapEquip[slot] else originalEquip[slot]
      ensures Stats(worn) - Stats(originalEquip) + (if armorSwapped then prepullBonus else 0.0) ==
              (if swapSet == Swap1 then offsets.weaponSlots else 0.0) + (if armorSwapped then offsets.allSlots - offsets.weaponSlots else 0.0)
    {
      var all := Replaced(originalEquip, swapEquip, slots, false);
      var weapons := Replaced(originalEquip, swapEquip, slots, true);
      if swapSet == Swap1 && armorSwapped {
        assert worn == all;
      } else if swapSet == Swap1 {
        assert worn == weapons;
      } else if armorSwapped {
        SameDifference(worn, originalEquip, all, weapons);
      } else {
        assert worn == originalEquip;
      }
    }
  }

  /** A helmet that adds five to a stat, swapped in before the pull and kept on into the fight: the reset puts the
      original on again and leaves the five for the rebuild of the stats. */
  method HelmetLeft() returns (swap: ItemSwap, left: real)
    ensures fresh(swap) && swap.equipment[..] == swap.originalEquip && left == 5.0 == swap.added
  {
    var original := seq(SLOTS, i => Item(i, 0.0));
    var other := original[0 := Item(100, 5.0)];
    swap := new ItemSwap(original, other, [0], 0.0, -1);
    var changed := swap.SwapItems(-1, Swap1);
    changed := swap.SwapItems(1, Swap1);
    assert swap.armorSwapped && swap.now == 1;
    left := swap.Reset();
    assert Replaced(original, other, [0], false) == other && Replaced(original, other, [0], true) == original;
    assert other[1..] == original[1..];
    assert Stats(other) - Stats(original) == 5.0;
  }
}
