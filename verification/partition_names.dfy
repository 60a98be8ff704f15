/** Names of message partitions (app/services/message_partitions.py): messages_YYYY_MM, messages_default, or
    anything else attached to the table. */
module PartitionNames {
  import opened Wrappers
  import opened CalendarMonths

  const DEFAULT_NAME := "messages_default"
  const PREFIX := "messages_"

  predicate IsDigit(c: char) { '0' <= c <= '9' }

  function DigitOf(n: int): char
    requires 0 <= n < 10
  {
    '0' + n as char
  }

  function ValueOf(c: char): (n: int)
    requires IsDigit(c)
    ensures 0 <= n < 10
  {
    c as int - '0' as int
  }

  function TwoDigits(n: int): string
    requires 0 <= n < 100
  {
    [DigitOf(n / 10), DigitOf(n % 10)]
  }

  function FourDigits(n: int): string
    requires 0 <= n < 10000
  {
    TwoDigits(n / 100) + TwoDigits(n % 100)
  }

  function PartitionName(d: Date): string
    requires ValidDate(d)
  {
    PREFIX + FourDigits(d.year) + "_" + TwoDigits(d.month)
  }

  /** The year and month of a name that matches ^messages_(dddd)_(dd)$. */
  function ParseName(name: string): Option<(int, int)> {
    if |name| == 16 && name[..9] == PREFIX && name[13] == '_'
       && IsDigit(name[9]) && IsDigit(name[10]) && IsDigit(name[11]) && IsDigit(name[12])
       && IsDigit(name[14]) && IsDigit(name[15])
    then Some((1000 * ValueOf(name[9]) + 100 * ValueOf(name[10]) + 10 * ValueOf(name[11]) + ValueOf(name[12]),
               10 * ValueOf(name[14]) + ValueOf(name[15])))
    else None
  }

  lemma DigitsRoundTrip(n: int)
    requires 0 <= n < 100
    ensures |TwoDigits(n)| == 2 && IsDigit(TwoDigits(n)[0]) && IsDigit(TwoDigits(n)[1])
    ensures 10 * ValueOf(TwoDigits(n)[0]) + ValueOf(TwoDigits(n)[1]) == n
  {
  }

  /** Names are read back as the months they were made from, for every year of the calendar. */
  lemma NamesRoundTrip(d: Date)
    requires ValidDate(d)
    ensures ParseName(PartitionName(d)) == Some((d.year, d.month))
  {
    var name := PartitionName(d);
    DigitsRoundTrip(d.year / 100);
    DigitsRoundTrip(d.year % 100);
    DigitsRoundTrip(d.month);
    assert name[..9] == PREFIX;
    assert name[9..11] == TwoDigits(d.year / 100) && name[11..13] == TwoDigits(d.year % 100);
    assert name[14..16] == TwoDigits(d.month);
    assert name[9] == name[9..11][0] && name[10] == name[9..11][1];
    assert name[11] == name[11..13][0] && name[12] == name[11..13][1];
    assert name[14] == name[14..16][0] && name[15] == name[14..16][1];
  }

  /** Equal numbers, equal digits. */
  lemma DigitsAreUnique(a: int, b: int, c: int, d: int, a': int, b': int, c': int, d': int)
    requires 0 <= a < 10 && 0 <= b < 10 && 0 <= c < 10 && 0 <= d < 10
    requires 0 <= a' < 10 && 0 <= b' < 10 && 0 <= c' < 10 && 0 <= d' < 10
    requires 1000 * a + 100 * b + 10 * c + d == 1000 * a' + 100 * b' + 10 * c' + d'
    ensures a == a' && b == b' && c == c' && d == d'
  {
    assert a == a';
    assert b == b';
    assert c == c';
  }

  lemma SameDigit(c: char, d: char)
    requires IsDigit(c) && IsDigit(d) && ValueOf(c) == ValueOf(d)
    ensures c == d
  {
  }

  lemma ParsedNamesAreEqual(s: string, t: string)
    requires ParseName(s).Some? && ParseName(s) == ParseName(t)
    ensures s == t
  {
    DigitsAreUnique(ValueOf(s[9]), ValueOf(s[10]), ValueOf(s[11]), ValueOf(s[12]),
                    ValueOf(t[9]), ValueOf(t[10]), ValueOf(t[11]), ValueOf(t[12]));
    DigitsAreUnique(0, 0, ValueOf(s[14]), ValueOf(s[15]), 0, 0, ValueOf(t[14]), ValueOf(t[15]));
    SameDigit(s[9], t[9]);
    SameDigit(s[10], t[10]);
    SameDigit(s[11], t[11]);
    SameDigit(s[12], t[12]);
    SameDigit(s[14], t[14]);
    SameDigit(s[15], t[15]);
    assert s == s[..9] + [s[9], s[10], s[11], s[12], s[13], s[14], s[15]];
    assert t == t[..9] + [t[9], t[10], t[11], t[12], t[13], t[14], t[15]];
  }

  /** What maintenance sees in a name: the number of a calendar month, a month that does not exist
      (messages_2024_13), the default partition, or something to leave alone. */
  datatype Name = Monthly(i: nat) | NoSuchMonth(year: int, month: int) | Default | Other(text: string)

  function Read(name: string): Name {
    if name == DEFAULT_NAME then Default
    else
      var ym := ParseName(name);
      if ym.None? then Other(name)
      else if FirstOf(ym.value.0, ym.value.1).None? then NoSuchMonth(ym.value.0, ym.value.1)
      else Monthly(Index(Date(ym.value.0, ym.value.1, 1)))
  }

  /** Nothing is lost in reading: names are equal exactly when they read the same. */
  lemma ReadIsInjective(s: string, t: string)
    ensures Read(s) == Read(t) <==> s == t
  {
    if Read(s) == Read(t) && ParseName(s).Some? && ParseName(t).Some? {
      ParsedNamesAreEqual(s, t);
    }
  }

  /** The name made for a month reads as that month. */
  lemma ReadMonthName(d: Date)
    requires ValidDate(d)
    ensures Read(PartitionName(d)) == Monthly(Index(d))
  {
    NamesRoundTrip(d);
    assert ParseName(DEFAULT_NAME).None?;
  }

  /** Letter by letter: the year in four digits and the month in two. */
  lemma NameIsSpelled(d: Date)
    requires ValidDate(d)
    ensures var name := PartitionName(d);
            && |name| == 16 && name[..9] == "messages_" && name[13] == '_'
            && (forall i :: 9 <= i < 16 && i != 13 ==> '0' <= name[i] <= '9')
            && 1000 * (name[9] as int - 48) + 100 * (name[10] as int - 48) + 10 * (name[11] as int - 48)
               + (name[12] as int - 48) == d.year
            && 10 * (name[14] as int - 48) + (name[15] as int - 48) == d.month
  {
    NamesRoundTrip(d);
  }

  /** A name reads as a month of the calendar exactly when it is the one made for it, as the default partition exactly
      when it is that name, and as a month that does not exist when it looks like one with a year 0, a month 0 or a
      month above 12. */
  lemma ReadsAsMonthIff(name: string, i: nat)
    requires i < MONTHS
    ensures Read(name) == Monthly(i) <==> name == PartitionName(MonthAt(i))
    ensures Read(name) == Default <==> name == "messages_default"
    ensures Read(name).NoSuchMonth? ==>
              && |name| == 16 && name[..9] == "messages_" && name[13] == '_'
              && (name[9..13] == "0000" || name[14..] == "00" || Read(name).month > 12)
  {
    IndexOfMonthAt(i);
    ReadMonthName(MonthAt(i));
    ReadIsInjective(name, PartitionName(MonthAt(i)));
    if Read(name).NoSuchMonth? {
      var year, month := Read(name).year, Read(name).month;
      if year == 0 {
        assert name[9..13] == [name[9], name[10], name[11], name[12]] == "0000";
      } else if month == 0 {
        assert name[14..] == [name[14], name[15]] == "00";
      }
    }
  }
}
