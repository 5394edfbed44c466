/** Day names ("Day N") and the stored form of a dose in the shared doses file. */
module Days {
  import opened Decimal

  /** One stored dose: [amount, "HH:MM"] in doses.json. */
  datatype SavedDose = SavedDose(amount: real, time: string)

  /** f"Day {n}" */
  function DayName(n: nat): string {
    "Day " + NatToDecimal(n)
  }

  /** A key that int(k.split(" ")[1]) reads as a day index: "Day " followed by decimal digits. */
  predicate IsDayKey(k: string) {
    |k| > 4 && k[..4] == "Day " && AllDigits(k[4..])
  }

  /** The day index int(k.split(" ")[1]) of a day key. */
  function KeyIndex(k: string): nat
    requires IsDayKey(k)
  {
    DecimalValue(k[4..])
  }

  /** A day name is a day key and its index is the number it was made from. */
  lemma DayNameIndex(n: nat)
    ensures IsDayKey(DayName(n)) && KeyIndex(DayName(n)) == n
  {
    var k := DayName(n);
    assert k[..4] == "Day " && k[4..] == NatToDecimal(n);
  }

  /** Two different indices never give the same day name. */
  lemma DayNameInjective(a: nat, b: nat)
    requires DayName(a) == DayName(b)
    ensures a == b
  {
    DayNameIndex(a);
    DayNameIndex(b);
  }

  /** A name whose index exceeds the index of every existing day key is not yet a key. */
  lemma FreshDayName(keys: set<string>, n: nat)
    requires forall k :: k in keys ==> IsDayKey(k) && KeyIndex(k) < n
    ensures DayName(n) !in keys
  {
    DayNameIndex(n);
  }
}
