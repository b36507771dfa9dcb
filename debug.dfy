/**
 * convertMillisToHumanReadable of src/commands/utility/debug.ts, which
 * shows the bot's uptime (a whole number of milliseconds) in the largest
 * unit it reaches: "3 days", "1 hour", "less than a second".
 */
module DebugCommand {
  import opened Text

  /** A unit of time and its length in milliseconds. */
  datatype Unit = Unit(name: string, size: nat)

  /** The units tried, largest first. */
  const Units: seq<Unit> := [
    Unit("day", 24 * 60 * 60 * 1000),
    Unit("hour", 60 * 60 * 1000),
    Unit("minute", 60 * 1000),
    Unit("second", 1000)
  ]

  const LessThanASecond := "less than a second"

  /** The index of the first unit from i on that millis reaches. */
  function FirstReached(units: seq<Unit>, millis: int, i: nat): (r: Option<nat>)
    requires i <= |units|
    ensures r.Some? ==> i <= r.value < |units| && units[r.value].size <= millis
    ensures r.Some? ==> forall j :: i <= j < r.value ==> units[j].size > millis
    ensures r.None? ==> forall j :: i <= j < |units| ==> units[j].size > millis
    decreases |units| - i
  {
    if i == |units| then None
    else if millis >= units[i].size then Some(i)
    else FirstReached(units, millis, i + 1)
  }

  /** "<amount> <unit>", with an "s" unless the amount is 1. */
  function Phrase(amount: nat, name: string): string {
    NatToString(amount) + " " + name + (if amount != 1 then "s" else "")
  }

  /** convertMillisToHumanReadable. */
  function ConvertMillisToHumanReadable(millis: int): string {
    match FirstReached(Units, millis, 0)
    case None => LessThanASecond
    case Some(k) => Phrase(millis / Units[k].size, Units[k].name)
  }

  /** Under a second reads "less than a second", and nothing else does. */
  lemma LessThanASecondIff(millis: int)
    ensures ConvertMillisToHumanReadable(millis) == LessThanASecond <==> millis < 1000
  {
    var r := FirstReached(Units, millis, 0);
    if r.Some? {
      var k := r.value;
      var s := ConvertMillisToHumanReadable(millis);
      assert s[0] == NatToString(millis / Units[k].size)[0];
      assert '0' <= s[0] <= '9';
      assert LessThanASecond[0] == 'l';
    } else {
      assert Units[3].size > millis;
    }
  }

  /** From a second on, the reading uses the first unit, largest first,
      that fits in millis; the amount is the whole number of those units,
      at least 1. */
  lemma UnitChoice(millis: int)
    requires millis >= 1000
    ensures FirstReached(Units, millis, 0).Some?
    ensures var k := FirstReached(Units, millis, 0).value;
            var amount := millis / Units[k].size;
            && Units[k].size <= millis && (forall j :: 0 <= j < k ==> millis < Units[j].size)
            && amount >= 1 && amount * Units[k].size <= millis < (amount + 1) * Units[k].size
            && ConvertMillisToHumanReadable(millis) == Phrase(amount, Units[k].name)
  {
    assert Units[3].size <= millis;
    var k := FirstReached(Units, millis, 0).value;
    var size := Units[k].size;
    assert size > 0;
    assert millis == (millis / size) * size + millis % size;
  }

  /** The reading ends in "s" exactly when the amount is not 1 (no unit
      name ends in "s"). */
  lemma PluralIffNotOne(millis: int)
    requires millis >= 1000
    ensures var k := FirstReached(Units, millis, 0).value;
            EndsWith(ConvertMillisToHumanReadable(millis), "s") <==> millis / Units[k].size != 1
  {
    UnitChoice(millis);
    var k := FirstReached(Units, millis, 0).value;
    var amount := millis / Units[k].size;
    var name := Units[k].name;
    var s := ConvertMillisToHumanReadable(millis);
    assert name[|name| - 1] != 's';
    if amount == 1 {
      assert s == NatToString(amount) + " " + name;
      assert s[|s| - 1] == name[|name| - 1];
    } else {
      assert s == NatToString(amount) + " " + name + "s";
    }
  }
}
