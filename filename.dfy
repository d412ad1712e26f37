/** Filename-safe spellings of URLs: the escapers of filename/filename_linux.go
    (Encode, Strip, Replace, with the ext4 length bound) and filename/filename.go
    (Linux, the escaper that names the cache files). */
module FileName {
  import opened Wrappers
  import opened Text

  /** Longest file name ext4 allows, in bytes. */
  const Ext4MaxLength: nat := 255

  /** The error `fmt.Errorf(ErrInvalidFileNameLength, len(clean), Ext4MaxLength)`. */
  datatype LengthError = InvalidFileNameLength(length: nat, max: nat)

  /** The runes a Linux file name may not contain: `/` and NUL. */
  predicate IsHostile(r: char)
    ensures IsHostile(r) ==> RuneLen(r) == 1
  {
    r == '/' || r == '\0'
  }

  /** A name is short enough when it has fewer than 255 bytes (so fewer than
      255 runes too). */
  predicate IsSafeLen(s: string)
    ensures IsSafeLen(s) ==> |s| < Ext4MaxLength
  {
    ByteLenBounds(s);
    ByteLen(s) < Ext4MaxLength
  }

  predicate NoHostile(s: string)
  {
    forall i :: 0 <= i < |s| ==> !IsHostile(s[i])
  }

  /** Number of hostile runes in `s`. */
  function HostileCount(s: string): (n: nat)
    ensures n <= |s|
    ensures n == 0 <==> NoHostile(s)
  {
    if s == [] then 0
    else HostileCount(s[..|s| - 1]) + (if IsHostile(s[|s| - 1]) then 1 else 0)
  }

  /** url.QueryEscape of a hostile rune: upper-case percent-encoding. */
  function QueryEscape(r: char): (e: string)
    requires IsHostile(r)
    ensures |e| == 3 && e[0] == '%' && NoHostile(e)
  {
    if r == '/' then "%2F" else "%00"
  }

  /** What `Linux` appends for one rune: lower-case `%2f`, `%00`, or the rune. */
  function LinuxRune(r: char): (e: string)
    ensures IsHostile(r) ==> |e| == 3 && NoHostile(e)
    ensures !IsHostile(r) ==> e == [r]
  {
    if r == '/' then "%2f" else if r == '\0' then "%00" else [r]
  }

  // ---------------------------------------------------------------------
  // The results the four loops build, rune by rune
  // ---------------------------------------------------------------------

  /** The string `Encode`'s loop builds, before the length check. */
  function Encoded(s: string): (r: string)
    ensures NoHostile(r)
    ensures ByteLen(r) == ByteLen(s) + 2 * HostileCount(s)
    ensures NoHostile(s) ==> r == s
  {
    if s == [] then []
    else
      var init, c := s[..|s| - 1], s[|s| - 1];
      var piece := if IsHostile(c) then QueryEscape(c) else [c];
      ByteLenAppend(Encoded(init), piece);
      ByteLenAppend(init, [c]);
      assert s == init + [c];
      assert IsHostile(c) ==> ByteLen(piece) == 3 by {
        if IsHostile(c) {
          ByteLenAscii(piece);
        }
      }
      Encoded(init) + piece
  }

  /** The string `Strip`'s loop builds: `s` without its hostile runes. */
  function Stripped(s: string): (r: string)
    ensures NoHostile(r)
    ensures |r| + HostileCount(s) == |s|
    ensures NoHostile(s) ==> r == s
  {
    if s == [] then []
    else
      var init, c := s[..|s| - 1], s[|s| - 1];
      assert s == init + [c];
      Stripped(init) + (if IsHostile(c) then [] else [c])
  }

  /** The string `Replace`'s loop builds: `rep` in place of each hostile rune. */
  function Replaced(s: string, rep: string): (r: string)
    ensures |r| + HostileCount(s) == |s| + HostileCount(s) * |rep|
    ensures NoHostile(rep) ==> NoHostile(r)
  {
    if s == [] then []
    else
      var init, c := s[..|s| - 1], s[|s| - 1];
      var k := HostileCount(init);
      assert HostileCount(s) == k + (if IsHostile(c) then 1 else 0);
      assert (k + 1) * |rep| == k * |rep| + |rep|;
      Replaced(init, rep) + (if IsHostile(c) then rep else [c])
  }

  /** The string `Linux` returns. */
  function LinuxEscaped(s: string): (r: string)
    ensures NoHostile(r)
    ensures ByteLen(r) == ByteLen(s) + 2 * HostileCount(s)
    ensures NoHostile(s) ==> r == s
  {
    if s == [] then []
    else
      var init, c := s[..|s| - 1], s[|s| - 1];
      var piece := LinuxRune(c);
      ByteLenAppend(LinuxEscaped(init), piece);
      ByteLenAppend(init, [c]);
      assert s == init + [c];
      assert IsHostile(c) ==> ByteLen(piece) == 3 by {
        if IsHostile(c) {
          ByteLenAscii(piece);
        }
      }
      LinuxEscaped(init) + piece
  }

  // ---------------------------------------------------------------------
  // The operations
  // ---------------------------------------------------------------------

  /** Percent-encodes the hostile runes of `unsafe`; fails, returning "", when
      the result has 255 bytes or more. */
  method Encode(unsafe: string) returns (clean: string, err: Option<LengthError>)
    ensures err.None? <==> IsSafeLen(Encoded(unsafe))
    ensures err.None? ==> clean == Encoded(unsafe) && NoHostile(clean)
    ensures err.Some? ==> clean == "" && err.value == InvalidFileNameLength(ByteLen(Encoded(unsafe)), Ext4MaxLength)
    ensures NoHostile(unsafe) && IsSafeLen(unsafe) ==> err.None? && clean == unsafe
  {
    clean := "";
    var i := 0;
    while i < |unsafe|
      invariant 0 <= i <= |unsafe|
      invariant clean == Encoded(unsafe[..i])
    {
      var chr := unsafe[i];
      if IsHostile(chr) {
        clean := clean + QueryEscape(chr);
      } else {
        clean := clean + [chr];
      }
      assert unsafe[..i + 1][..i] == unsafe[..i];
      i := i + 1;
    }
    assert unsafe[..i] == unsafe;
    if !IsSafeLen(clean) {
      return "", Some(InvalidFileNameLength(ByteLen(clean), Ext4MaxLength));
    }
    return clean, None;
  }

  /** Removes the hostile runes of `unsafe`; fails, returning "", when the
      result has 255 bytes or more. */
  method Strip(unsafe: string) returns (clean: string, err: Option<LengthError>)
    ensures err.None? <==> IsSafeLen(Stripped(unsafe))
    ensures err.None? ==> clean == Stripped(unsafe) && NoHostile(clean)
    ensures err.Some? ==> clean == "" && err.value == InvalidFileNameLength(ByteLen(Stripped(unsafe)), Ext4MaxLength)
    ensures NoHostile(unsafe) && IsSafeLen(unsafe) ==> err.None? && clean == unsafe
  {
    clean := "";
    var i := 0;
    while i < |unsafe|
      invariant 0 <= i <= |unsafe|
      invariant clean == Stripped(unsafe[..i])
    {
      var chr := unsafe[i];
      assert unsafe[..i + 1][..i] == unsafe[..i];
      if IsHostile(chr) {
        i := i + 1;
        continue;
      } else {
        clean := clean + [chr];
      }
      i := i + 1;
    }
    assert unsafe[..i] == unsafe;
    if !IsSafeLen(clean) {
      return "", Some(InvalidFileNameLength(ByteLen(clean), Ext4MaxLength));
    }
    return clean, None;
  }

  /** Puts `replace` in place of each hostile rune of `unsafe`; fails,
      returning "", when the result has 255 bytes or more. */
  method Replace(unsafe: string, replace: string) returns (clean: string, err: Option<LengthError>)
    ensures err.None? <==> IsSafeLen(Replaced(unsafe, replace))
    ensures err.None? ==> clean == Replaced(unsafe, replace)
    ensures err.Some? ==> clean == "" && err.value == InvalidFileNameLength(ByteLen(Replaced(unsafe, replace)), Ext4MaxLength)
  {
    clean := "";
    var i := 0;
    while i < |unsafe|
      invariant 0 <= i <= |unsafe|
      invariant clean == Replaced(unsafe[..i], replace)
    {
      var chr := unsafe[i];
      if IsHostile(chr) {
        clean := clean + replace;
      } else {
        clean := clean + [chr];
      }
      assert unsafe[..i + 1][..i] == unsafe[..i];
      i := i + 1;
    }
    assert unsafe[..i] == unsafe;
    if !IsSafeLen(clean) {
      return "", Some(InvalidFileNameLength(ByteLen(clean), Ext4MaxLength));
    }
    return clean, None;
  }

  /** Escapes `/` as `%2f` and NUL as `%00`; never fails and has no length
      bound. */
  method Linux(unencoded: string) returns (clean: string)
    ensures clean == LinuxEscaped(unencoded)
    ensures NoHostile(clean)
    ensures ByteLen(clean) == ByteLen(unencoded) + 2 * HostileCount(unencoded)
    ensures NoHostile(unencoded) ==> clean == unencoded
  {
    clean := "";
    var i := 0;
    while i < |unencoded|
      invariant 0 <= i <= |unencoded|
      invariant clean == LinuxEscaped(unencoded[..i])
    {
      var chr := unencoded[i];
      assert unencoded[..i + 1][..i] == unencoded[..i];
      assert LinuxEscaped(unencoded[..i + 1]) == clean + LinuxRune(chr);
      if chr == '/' {
        clean := clean + "%2f";
      } else if chr == '\0' {
        clean := clean + "%00";
      } else {
        clean := clean + [chr];
      }
      i := i + 1;
    }
    assert unencoded[..i] == unencoded;
  }

  // ---------------------------------------------------------------------
  // Properties relating the escapers
  // ---------------------------------------------------------------------

  /** Replacing with the empty string is stripping. */
  lemma {:induction false} ReplaceEmptyIsStrip(s: string)
    ensures Replaced(s, "") == Stripped(s)
  {
    if s != [] {
      ReplaceEmptyIsStrip(s[..|s| - 1]);
    }
  }

  /** So `Replace(s, "")` returns exactly what `Strip(s)` returns, error
      included. */
  lemma ReplaceEmptyAgreesWithStrip(s: string)
    ensures IsSafeLen(Replaced(s, "")) <==> IsSafeLen(Stripped(s))
    ensures ByteLen(Replaced(s, "")) == ByteLen(Stripped(s))
  {
    ReplaceEmptyIsStrip(s);
  }

  /** Escaping an escaped name changes nothing more. */
  lemma LinuxIdempotent(s: string)
    ensures LinuxEscaped(LinuxEscaped(s)) == LinuxEscaped(s)
  {
  }

  lemma {:induction false} EncodedCountsF(s: string)
    ensures Count(Encoded(s), 'F') == Count(s, 'F') + Count(s, '/')
  {
    if s != [] {
      var init, c := s[..|s| - 1], s[|s| - 1];
      EncodedCountsF(init);
      var piece := if IsHostile(c) then QueryEscape(c) else [c];
      CountAppend(Encoded(init), piece, 'F');
      if IsHostile(c) {
        CountThree(piece, 'F');
      }
    }
  }

  lemma {:induction false} LinuxCountsF(s: string)
    ensures Count(LinuxEscaped(s), 'F') == Count(s, 'F')
  {
    if s != [] {
      var init, c := s[..|s| - 1], s[|s| - 1];
      LinuxCountsF(init);
      CountAppend(LinuxEscaped(init), LinuxRune(c), 'F');
      if IsHostile(c) {
        CountThree(LinuxRune(c), 'F');
      }
    }
  }

  lemma {:induction false} EncodedIsLinuxWithoutSlash(s: string)
    requires '/' !in s
    ensures Encoded(s) == LinuxEscaped(s)
  {
    if s != [] {
      EncodedIsLinuxWithoutSlash(s[..|s| - 1]);
    }
  }

  /** The two escapers spell `/` differently (`%2F` against `%2f`), so they
      agree on exactly the names without `/`. */
  lemma EncodeAgreesWithLinuxIffNoSlash(s: string)
    ensures Encoded(s) == LinuxEscaped(s) <==> '/' !in s
  {
    if '/' in s {
      EncodedCountsF(s);
      LinuxCountsF(s);
      CountZero(s, '/');
    } else {
      EncodedIsLinuxWithoutSlash(s);
    }
  }

  /** The first case of the Encode test table: the code yields upper-case
      `%2F`, where the test expects `asdf%2f`. */
  lemma EncodeSlashIsUpperCase()
    ensures Encoded("asdf/") == "asdf%2F"
    ensures Encoded("asdf/") != "asdf%2f"
  {
    var s := "asdf/";
    assert s[..|s| - 1] == "asdf" && s[|s| - 1] == '/';
    assert NoHostile("asdf");
    assert Encoded(s) == Encoded("asdf") + QueryEscape('/');
    assert Encoded(s) == "asdf" + "%2F";
    assert Encoded(s)[6] != "asdf%2f"[6];
  }
}
