/** The text of `/proc/self/mountinfo`: octal escapes, mount options and mount lines. */
module MountText {
  import opened Options
  import opened Numbers
  import opened TextLines

  // ----- octal escapes -----

  const BACKSLASH: char := '\\'

  function DigitOf(n: nat): char
    requires n < 8
  {
    ('0' as int + n) as char
  }

  /** How the kernel writes one escaped character. */
  function Escape(c: char): string
    requires c as int < 256
  {
    var n := c as int;
    [BACKSLASH, DigitOf(n / 64), DigitOf(n / 8 % 8), DigitOf(n % 8)]
  }

  /** A text with the characters of `esc` escaped. */
  function Escaped(s: string, esc: set<char>): string
    requires forall c | c in esc :: c as int < 256
  {
    if s == [] then []
    else (if s[0] in esc then Escape(s[0]) else [s[0]]) + Escaped(s[1..], esc)
  }

  predicate IsOctal(d: string) {
    d != [] && forall i | 0 <= i < |d| :: '0' <= d[i] <= '7'
  }

  function OctalValue(d: string): nat
    requires forall i | 0 <= i < |d| :: '0' <= d[i] <= '7'
  {
    if d == [] then 0 else OctalValue(d[..|d| - 1]) * 8 + (d[|d| - 1] as int - '0' as int)
  }

  /** `u8::from_str_radix(d, 8)`, which admits one leading plus sign. */
  function FromOctal(d: string): Option<char> {
    var digits := if |d| > 1 && d[0] == '+' then d[1..] else d;
    if IsOctal(digits) && OctalValue(digits) < 256 then Some(OctalValue(digits) as char) else None
  }

  /** What follows a backslash: one character, or up to three kept as they are. */
  function Meant(d: string): string {
    match FromOctal(d)
    case Some(c) => [c]
    case None => d
  }

  function Unescaped(s: string): string
    decreases |s|
  {
    if s == [] then []
    else if s[0] == BACKSLASH then
      var n := Min(3, |s| - 1);
      Meant(s[1..1 + n]) + Unescaped(s[1 + n..])
    else [s[0]] + Unescaped(s[1..])
  }

  lemma UnescapedStep(s: string, i: nat)
    requires i < |s|
    ensures s[i] != BACKSLASH ==> Unescaped(s[i..]) == [s[i]] + Unescaped(s[i + 1..])
    ensures s[i] == BACKSLASH ==>
      var next := i + 1 + Min(3, |s| - i - 1);
      Unescaped(s[i..]) == Meant(s[i + 1..next]) + Unescaped(s[next..])
  {
    var rest := s[i..];
    var n := Min(3, |rest| - 1);
    assert rest[1..] == s[i + 1..] && rest[1 + n..] == s[i + 1 + n..] && rest[1..1 + n] == s[i + 1..i + 1 + n];
  }

  /** `unescape_mountinfo`. */
  method Unescape(s: string) returns (out: string)
    ensures out == Unescaped(s)
  {
    hide Unescaped, FromOctal;
    out := [];
    var i := 0;
    assert s[0..] == s;
    while i < |s|
      invariant i <= |s| && out + Unescaped(s[i..]) == Unescaped(s)
    {
      UnescapedStep(s, i);
      ghost var before := out;
      var c := s[i];
      i := i + 1;
      if c == BACKSLASH {
        var n := Min(3, |s| - i);
        var digits := s[i..i + n];
        i := i + n;
        var v := FromOctal(digits);
        if v.Some? {
          out := out + [v.value];
          Regroup(before, [v.value], Unescaped(s[i..]));
          continue;
        }
        out := out + digits;
        Regroup(before, digits, Unescaped(s[i..]));
      } else {
        out := out + [c];
        Regroup(before, [c], Unescaped(s[i..]));
      }
    }
    NothingIsUnescaped();
    assert s[i..] == [];
  }

  lemma Regroup(a: string, b: string, c: string)
    ensures a + b + c == a + (b + c)
  {
  }

  lemma NothingIsUnescaped()
    ensures Unescaped([]) == []
  {
  }

  /** Which digits are read as a character: one plus sign may precede them, and 255 is the most. */
  lemma OctalTextsMean(d: string)
    ensures FromOctal(d).Some? ==>
      exists digits: string :: (d == digits || d == ['+'] + digits) && IsOctal(digits)
        && OctalValue(digits) == FromOctal(d).value as int < 256
    ensures FromOctal([]) == None && FromOctal(['+']) == None
    ensures IsOctal(d) && OctalValue(d) < 256 ==> FromOctal(d) == Some(OctalValue(d) as char)
    ensures IsOctal(d) && OctalValue(d) < 256 ==> FromOctal(['+'] + d) == Some(OctalValue(d) as char)
    ensures IsOctal(d) && OctalValue(d) >= 256 ==> FromOctal(d) == None
  {
    assert (['+'] + d)[1..] == d;
    if FromOctal(d).Some? {
      var digits := if |d| > 1 && d[0] == '+' then d[1..] else d;
      assert d == digits || d == ['+'] + digits;
    }
  }

  lemma EscapeIsRead(c: char)
    requires c as int < 256
    ensures FromOctal(Escape(c)[1..]) == Some(c)
  {
    var n := c as int;
    var d := [DigitOf(n / 64), DigitOf(n / 8 % 8), DigitOf(n % 8)];
    assert Escape(c)[1..] == d;
    assert d[..2] == [DigitOf(n / 64), DigitOf(n / 8 % 8)];
    assert d[..2][..1] == [DigitOf(n / 64)] && d[..2][..1][..0] == [];
    assert OctalValue(d[..2][..1]) == n / 64;
    assert OctalValue(d[..2]) == n / 8;
  }

  /** Unescaping undoes escaping for every text, whatever is escaped beside the backslash. */
  lemma {:induction false} UnescapeInvertsEscape(s: string, esc: set<char>)
    requires BACKSLASH in esc && forall c | c in esc :: c as int < 256
    ensures Unescaped(Escaped(s, esc)) == s
  {
    if s != [] {
      UnescapeInvertsEscape(s[1..], esc);
      var rest := Escaped(s[1..], esc);
      if s[0] in esc {
        EscapeIsRead(s[0]);
        var e := Escape(s[0]) + rest;
        assert e[1..4] == Escape(s[0])[1..] && e[4..] == rest;
      } else {
        assert ([s[0]] + rest)[1..] == rest;
      }
    }
  }

  /** An escaped separator never shows up in the escaped text. */
  lemma {:induction false} EscapedIsFree(s: string, esc: set<char>, sep: char)
    requires forall c | c in esc :: c as int < 256
    requires sep in esc && sep != BACKSLASH && !('0' <= sep <= '7')
    ensures sep !in Escaped(s, esc)
  {
    if s != [] {
      EscapedIsFree(s[1..], esc, sep);
    }
  }

  // ----- mount options -----

  datatype Flag = NoSuid | NoDev | NoExec | NoAtime | NoDirAtime | RelAtime | NoSymFollow

  /** The kernel's names for the per-mount flags. */
  function FlagName(f: Flag): string {
    match f
    case NoSuid => "nosuid"
    case NoDev => "nodev"
    case NoExec => "noexec"
    case NoAtime => "noatime"
    case NoDirAtime => "nodiratime"
    case RelAtime => "relatime"
    case NoSymFollow => "nosymfollow"
  }

  const ALL_FLAGS: seq<Flag> := [NoSuid, NoDev, NoExec, NoAtime, NoDirAtime, RelAtime, NoSymFollow]

  function NamesFrom(flags: set<Flag>, order: seq<Flag>): seq<string> {
    if order == [] then []
    else (if order[0] in flags then [FlagName(order[0])] else []) + NamesFrom(flags, order[1..])
  }

  function AccessName(readOnly: bool): string {
    if readOnly then "ro" else "rw"
  }

  /** The options of one mount as the kernel lists them. */
  function OptionNames(readOnly: bool, flags: set<Flag>): (names: seq<string>)
    ensures names != []
  {
    [AccessName(readOnly)] + NamesFrom(flags, ALL_FLAGS)
  }

  predicate Known(f: Flag) {
    f != NoSymFollow
  }

  function FlagsIn(names: seq<string>): set<Flag> {
    set f: Flag | Known(f) && FlagName(f) in names
  }

  /** The flag one option asks for, if any. */
  function FlagNamed(o: string): set<Flag> {
    if o == "nosuid" then {NoSuid}
    else if o == "nodev" then {NoDev}
    else if o == "noexec" then {NoExec}
    else if o == "noatime" then {NoAtime}
    else if o == "nodiratime" then {NoDirAtime}
    else if o == "relatime" then {RelAtime}
    else {}
  }

  lemma FlagNamedIsExact(o: string)
    ensures FlagNamed(o) == set f: Flag | Known(f) && FlagName(f) == o
  {
  }

  /** What each option text means, and that others mean nothing. */
  lemma OptionTextsMean(o: string)
    ensures FlagsIn([o]) ==
      if o == "nosuid" then {NoSuid} else if o == "nodev" then {NoDev} else if o == "noexec" then {NoExec}
      else if o == "noatime" then {NoAtime} else if o == "nodiratime" then {NoDirAtime}
      else if o == "relatime" then {RelAtime} else {}
    ensures AccessName(true) == "ro" && AccessName(false) == "rw" && FlagName(NoSymFollow) == "nosymfollow"
  {
    FlagNamedIsExact(o);
  }

  /** `parse_mount_opts`: the flags named by the comma-separated options. */
  method ParseMountOpts(opts: string) returns (flags: set<Flag>)
    ensures flags == FlagsIn(Split(opts, ','))
  {
    hide FlagNamed, FlagName;
    flags := {};
    var names := Split(opts, ',');
    var i := 0;
    while i < |names|
      invariant i <= |names| && flags == FlagsIn(names[..i])
    {
      FlagNamedIsExact(names[i]);
      flags := flags + FlagNamed(names[i]);
      i := i + 1;
      assert names[..i] == names[..i - 1] + [names[i - 1]];
    }
    assert names[..|names|] == names;
  }

  lemma NamesAreDistinct(f: Flag, g: Flag)
    ensures FlagName(f) == FlagName(g) ==> f == g
    ensures FlagName(f) != AccessName(true) && FlagName(f) != AccessName(false)
    ensures AccessName(true) != AccessName(false)
  {
  }

  lemma {:induction false} NamesFromAreThose(flags: set<Flag>, order: seq<Flag>)
    ensures forall o :: o in NamesFrom(flags, order) <==> exists f :: f in order && f in flags && FlagName(f) == o
  {
    hide FlagName;
    if order != [] {
      NamesFromAreThose(flags, order[1..]);
      assert order == [order[0]] + order[1..];
    }
  }

  /** Parsing the kernel's options gives back every flag but `nosymfollow`, and the access. */
  lemma OptionsReadBack(readOnly: bool, flags: set<Flag>)
    ensures FlagsIn(OptionNames(readOnly, flags)) == flags - {NoSymFollow}
    ensures AccessName(true) in OptionNames(readOnly, flags) <==> readOnly
  {
    hide FlagName, AccessName;
    NamesFromAreThose(flags, ALL_FLAGS);
    assert forall f: Flag :: f in ALL_FLAGS by {
      forall f: Flag
        ensures f in ALL_FLAGS
      {
        match f
        case NoSuid => assert ALL_FLAGS[0] == f;
        case NoDev => assert ALL_FLAGS[1] == f;
        case NoExec => assert ALL_FLAGS[2] == f;
        case NoAtime => assert ALL_FLAGS[3] == f;
        case NoDirAtime => assert ALL_FLAGS[4] == f;
        case RelAtime => assert ALL_FLAGS[5] == f;
        case NoSymFollow => assert ALL_FLAGS[6] == f;
      }
    }
    forall f: Flag, g: Flag
      ensures FlagName(f) == FlagName(g) ==> f == g
      ensures FlagName(f) != AccessName(true) && FlagName(f) != AccessName(false)
    {
      NamesAreDistinct(f, g);
    }
    NamesAreDistinct(NoSuid, NoSuid);
    var names := OptionNames(readOnly, flags);
    forall f: Flag
      ensures FlagName(f) in names <==> f in flags
    {
      assert FlagName(f) in names <==> FlagName(f) in NamesFrom(flags, ALL_FLAGS);
    }
  }

  lemma OptionsAreFree(readOnly: bool, flags: set<Flag>, sep: char)
    requires sep < 'a'
    ensures Free(OptionNames(readOnly, flags), sep)
  {
    hide FlagName;
    NamesFromAreThose(flags, ALL_FLAGS);
    forall f: Flag
      ensures sep !in FlagName(f)
    {
      NameIsFree(f, sep);
    }
    var names := OptionNames(readOnly, flags);
    forall i | 0 <= i < |names|
      ensures sep !in names[i]
    {
      if i > 0 {
        assert names[i] in NamesFrom(flags, ALL_FLAGS);
      }
    }
  }

  lemma NameIsFree(f: Flag, sep: char)
    requires sep < 'a'
    ensures sep !in FlagName(f)
  {
  }

  // ----- mount lines -----

  /**
   One mounted file system: its leading fields (ids, device, root), mount point, access and
   flags, and its trailing fields (tags, type, source, superblock options).
   */
  datatype Mount = Mount(head: seq<string>, path: string, readOnly: bool, flags: set<Flag>, rest: seq<string>)

  const ESCAPES: set<char> := {' ', '\t', '\n', '\\'}

  predicate WellFormed(m: Mount) {
    && |m.head| == 4 && m.rest != []
    && Free(m.head, ' ') && Free(m.head, '\n') && Free(m.rest, ' ') && Free(m.rest, '\n')
  }

  function FieldsOf(m: Mount): (fs: seq<string>)
    ensures fs != []
  {
    m.head + [Escaped(m.path, ESCAPES), Joined(OptionNames(m.readOnly, m.flags), ',')] + m.rest
  }

  function KernelLine(m: Mount): string {
    Joined(FieldsOf(m), ' ')
  }

  /** What the parser keeps of a mount. */
  datatype Listing = Listing(path: string, flags: set<Flag>, readOnly: bool)

  function ParseLine(line: string): Option<Listing> {
    var fields := Split(line, ' ');
    if |fields| <= 5 then None
    else
      var options := Split(fields[5], ',');
      Some(Listing(Unescaped(fields[4]), FlagsIn(options), "ro" in options))
  }

  function ListingOf(m: Mount): Listing {
    Listing(m.path, m.flags - {NoSymFollow}, m.readOnly)
  }

  lemma {:induction false} StripJoined(fs: seq<string>)
    requires fs != []
    ensures StripEnd(Joined(fs, ' '), '\r') == Joined(fs[..|fs| - 1] + [StripEnd(fs[|fs| - 1], '\r')], ' ')
  {
    var last := StripEnd(fs[|fs| - 1], '\r');
    if |fs| == 1 {
      assert fs[..0] + [last] == [last];
    } else {
      StripJoined(fs[1..]);
      assert (fs[..|fs| - 1] + [last])[1..] == fs[1..][..|fs| - 2] + [last];
      assert fs[1..][|fs| - 2] == fs[|fs| - 1];
    }
  }

  lemma {:induction false} JoinedIsFree(fs: seq<string>, sep: char, c: char)
    requires fs != [] && Free(fs, c) && sep != c
    ensures c !in Joined(fs, sep)
  {
    assert c !in fs[0];
    if |fs| > 1 {
      JoinedIsFree(fs[1..], sep, c);
    }
  }

  lemma FieldsAreFree(m: Mount, sep: char)
    requires WellFormed(m) && (sep == ' ' || sep == '\n')
    ensures Free(FieldsOf(m), sep)
  {
    hide Escaped, OptionNames, Joined;
    EscapedIsFree(m.path, ESCAPES, sep);
    OptionsAreFree(m.readOnly, m.flags, sep);
    JoinedOptionsAreFree(m, sep);
  }

  lemma JoinedOptionsAreFree(m: Mount, sep: char)
    requires sep == ' ' || sep == '\n'
    ensures sep !in Joined(OptionNames(m.readOnly, m.flags), ',')
  {
    OptionsAreFree(m.readOnly, m.flags, sep);
    JoinedIsFree(OptionNames(m.readOnly, m.flags), ',', sep);
  }

  /** A line of the kernel is read back as its mount point, access and known flags. */
  lemma LineReadsBack(m: Mount)
    requires WellFormed(m)
    ensures ParseLine(StripEnd(KernelLine(m), '\r')) == Some(ListingOf(m))
  {
    hide Escaped, Unescaped, OptionNames, Joined, Split, FlagsIn;
    var fs := FieldsOf(m);
    FieldsAreFree(m, ' ');
    StripJoined(fs);
    var kept := fs[..|fs| - 1] + [StripEnd(fs[|fs| - 1], '\r')];
    assert Free(kept, ' ') by {
      assert ' ' !in fs[|fs| - 1];
    }
    SplitOfJoined(kept, ' ');
    assert kept[4] == Escaped(m.path, ESCAPES);
    UnescapeInvertsEscape(m.path, ESCAPES);
    OptionsAreFree(m.readOnly, m.flags, ',');
    SplitOfJoined(OptionNames(m.readOnly, m.flags), ',');
    OptionsReadBack(m.readOnly, m.flags);
  }

  /** The whole table as text. */
  function Info(rows: seq<Mount>): string {
    Unlines(seq(|rows|, i requires 0 <= i < |rows| => KernelLine(rows[i])), '\n')
  }

  /** Reading the table gives one line per mount, in order. */
  lemma InfoReadsBack(rows: seq<Mount>)
    requires forall i | 0 <= i < |rows| :: WellFormed(rows[i])
    ensures
      var lines := Lines(Info(rows), '\n', '\r');
      |lines| == |rows| && forall i | 0 <= i < |rows| :: ParseLine(lines[i]) == Some(ListingOf(rows[i]))
  {
    hide KernelLine, ParseLine, ListingOf, Lines, Unlines, WellFormed;
    var ls := seq(|rows|, i requires 0 <= i < |rows| => KernelLine(rows[i]));
    forall i | 0 <= i < |rows|
      ensures '\n' !in ls[i] && ParseLine(StripEnd(ls[i], '\r')) == Some(ListingOf(rows[i]))
    {
      LineReadsBack(rows[i]);
      LineIsFree(rows[i]);
    }
    LinesOfUnlines(ls, '\n', '\r');
  }

  lemma LineIsFree(m: Mount)
    requires WellFormed(m)
    ensures '\n' !in KernelLine(m)
  {
    FieldsAreFree(m, '\n');
    JoinedIsFree(FieldsOf(m), ' ', '\n');
  }
}
