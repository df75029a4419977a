/** The backup key grammar `<name>.<YYYY.MM.DD>.tar.bz2`: building a key from a
    save name and a calendar date, and parsing a storage key back into its parts. */
module BackupKey {
  import opened Wrappers
  import opened Text

  /** The calendar fields the bot reads from `new Date()`: `getFullYear()`,
      `getMonth() + 1` and `getDate()`. The clock itself is an input. */
  datatype CalendarDate = CalendarDate(year: nat, month: nat, day: nat)

  /** Fields a JavaScript `Date` can produce, for a year written with four digits. */
  predicate FourDigitYear(d: CalendarDate) {
    1000 <= d.year <= 9999 && 1 <= d.month <= 12 && 1 <= d.day <= 31
  }

  /** `currentDateString()`: the year unpadded, month and day padded to two digits. */
  function DateStamp(d: CalendarDate): (s: string)
    ensures 1 <= d.month <= 12 && 1 <= d.day <= 31 ==> |s| == |NatToString(d.year)| + 6
  {
    NatToString(d.year) + "." + Pad2(d.month) + "." + Pad2(d.day)
  }

  const ArchiveSuffix: string := ".tar.bz2"

  /** `backupFilename(name)` for the date `today`. */
  function BackupFilename(name: string, today: CalendarDate): string {
    name + "." + DateStamp(today) + ArchiveSuffix
  }

  /** The companion metadata key the backup script uploads beside the archive. */
  function MetadataFilename(name: string, today: CalendarDate): string {
    name + "." + DateStamp(today) + ".json"
  }

  /** Matches `\d{4}\.\d{2}\.\d{2}`. */
  predicate IsDateStamp(s: string) {
    |s| == 10
    && IsDigit(s[0]) && IsDigit(s[1]) && IsDigit(s[2]) && IsDigit(s[3]) && s[4] == '.'
    && IsDigit(s[5]) && IsDigit(s[6]) && s[7] == '.' && IsDigit(s[8]) && IsDigit(s[9])
  }

  /** The characters a regular-expression `.` does not match. */
  predicate IsLineTerminator(c: char) {
    c == '\n' || c == '\r' || c == '\U{2028}' || c == '\U{2029}'
  }

  predicate NoLineTerminator(s: string) {
    forall i :: 0 <= i < |s| ==> !IsLineTerminator(s[i])
  }

  /** What `parseBackupKey` returns for a key that matches. */
  datatype BackupRef = BackupRef(name: string, date: string)

  /** `parseBackupKey(key)`: the match of `^(.*)\.(\d{4}\.\d{2}\.\d{2})\.tar\.bz2$`.
      The tail after `(.*)` has a fixed width of 19 characters, so the match, when
      there is one, is unique. */
  function ParseBackupKey(key: string): (r: Option<BackupRef>)
    ensures r.Some? ==> key == r.value.name + "." + r.value.date + ArchiveSuffix
    ensures r.Some? ==> IsDateStamp(r.value.date) && NoLineTerminator(r.value.name)
    ensures r.Some? ==> |key| >= 19 && key[|key| - 8..] == ArchiveSuffix
  {
    var n := |key|;
    if n >= 19 && key[n - 8..] == ArchiveSuffix && key[n - 19] == '.'
       && IsDateStamp(key[n - 18..n - 8]) && NoLineTerminator(key[..n - 19])
    then
      var name, date := key[..n - 19], key[n - 18..n - 8];
      assert key == name + "." + date + ArchiveSuffix;
      Some(BackupRef(name, date))
    else None
  }

  /** The parse accepts exactly the keys of the grammar, and returns their parts. */
  lemma ParseBackupKeyExactly(key: string, b: BackupRef)
    ensures ParseBackupKey(key) == Some(b)
        <==> key == b.name + "." + b.date + ArchiveSuffix && IsDateStamp(b.date) && NoLineTerminator(b.name)
  {
    if key == b.name + "." + b.date + ArchiveSuffix && IsDateStamp(b.date) && NoLineTerminator(b.name) {
      var n := |key|;
      assert key[..n - 19] == b.name;
      assert key[n - 18..n - 8] == b.date;
      assert key[n - 8..] == ArchiveSuffix;
    }
  }

  /** A date with a four-digit year renders as a date stamp of the grammar. */
  lemma DateStampWellFormed(d: CalendarDate)
    requires FourDigitYear(d)
    ensures IsDateStamp(DateStamp(d))
  {
    NatToStringWidth(d.year, 4);
    var y, m, dd := NatToString(d.year), Pad2(d.month), Pad2(d.day);
    var s := DateStamp(d);
    assert s == y + "." + m + "." + dd;
    assert s[0] == y[0] && s[1] == y[1] && s[2] == y[2] && s[3] == y[3];
    assert s[5] == m[0] && s[6] == m[1] && s[8] == dd[0] && s[9] == dd[1];
  }

  /** Round trip: the key built for `name` on a date with a four-digit year parses
      back to that name and that day's stamp. */
  lemma {:induction false} ParseBackupFilename(name: string, today: CalendarDate)
    requires NoLineTerminator(name) && FourDigitYear(today)
    ensures ParseBackupKey(BackupFilename(name, today)) == Some(BackupRef(name, DateStamp(today)))
  {
    DateStampWellFormed(today);
    ParseBackupKeyExactly(BackupFilename(name, today), BackupRef(name, DateStamp(today)));
  }

  /** Outside the years 1000 to 9999 `getFullYear()` has more or fewer than four digits,
      and the key the bot itself writes no longer parses. */
  lemma {:induction false} BackupFilenameNeedsFourDigitYear(name: string, today: CalendarDate)
    requires 1 <= today.month <= 12 && 1 <= today.day <= 31
    requires today.year < 1000 || today.year > 9999
    ensures ParseBackupKey(BackupFilename(name, today)) == None
  {
    var key := BackupFilename(name, today);
    var y := NatToString(today.year);
    var s := DateStamp(today);
    var n := |key|;
    NatToStringWidth(today.year, 4);
    assert key == name + "." + s + ArchiveSuffix;
    assert s == y + "." + Pad2(today.month) + "." + Pad2(today.day);
    if n < 19 {
    } else if |y| < 4 {
      // The dot in front of the year falls inside the four year digits of the stamp.
      assert key[|name|] == '.';
      assert key[n - 18..n - 8][|name| - (n - 18)] == '.';
      assert !IsDateStamp(key[n - 18..n - 8]);
    } else {
      // The character in front of the stamp is a year digit, not a dot.
      assert key[n - 19] == s[|s| - 11] == y[|y| - 5];
    }
  }

  /** The companion `.json` metadata key never parses as a backup key. */
  lemma MetadataKeyIsNotBackup(name: string, today: CalendarDate)
    ensures ParseBackupKey(MetadataFilename(name, today)) == None
  {
    var key := MetadataFilename(name, today);
    assert key[|key| - 1] == 'n';
  }
}
