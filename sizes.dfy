/** The byte-count helpers shared by the memory and storage screens: the
    fraction of a total in use, and the choice of unit for a size. */
module Sizes {

  const KIB: int := 1024
  const MIB: int := 1024 * 1024
  const GIB: int := 1024 * 1024 * 1024

  datatype SizeUnit = KB | MB | GB

  /** A size as shown: the unit chosen and the amount in that unit (before
      it is rounded to two decimals). */
  datatype SizeText = SizeText(unit: SizeUnit, amount: real)

  function UnitBytes(u: SizeUnit): int
  {
    match u
    case KB => KIB
    case MB => MIB
    case GB => GIB
  }

  /** `formatSize`: divide by 1024 three times and show the largest unit in
      which the amount is at least 1; kilobytes otherwise. */
  function FormatSize(bytes: int): (t: SizeText)
    ensures t.unit == GB <==> bytes >= GIB
    ensures t.unit == MB <==> MIB <= bytes < GIB
    ensures t.unit == KB <==> bytes < MIB
    ensures t.amount * UnitBytes(t.unit) as real == bytes as real
  {
    var kb := bytes as real / 1024.0;
    var mb := kb / 1024.0;
    var gb := mb / 1024.0;
    if gb >= 1.0 then SizeText(GB, gb)
    else if mb >= 1.0 then SizeText(MB, mb)
    else SizeText(KB, kb)
  }

  /** `used / total` as a fraction, or 0 when the total is not positive. */
  function UsedFraction(used: int, total: int): (f: real)
    ensures total <= 0 ==> f == 0.0
    ensures total > 0 ==> f * total as real == used as real
    ensures total > 0 && 0 <= used <= total ==> 0.0 <= f <= 1.0
  {
    if total > 0 then used as real / total as real else 0.0
  }
}
