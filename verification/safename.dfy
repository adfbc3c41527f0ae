/** `safe_filename` of the helpers module, with the parts of `pathlib`'s
    `PurePath.name`, `.stem` and `.suffix` it relies on, for names that
    hold no `/`. */
module SafeName {

  import opened Text

  /** The characters `safe_filename` replaces by `_`. */
  predicate IsUnsafe(c: char)
  {
    c == '<' || c == '>' || c == ':' || c == '"' || c == '/' || c == '\\' || c == '|' || c == '?' || c == '*'
  }

  predicate AllSafe(s: String)
  {
    forall i :: 0 <= i < |s| ==> !IsUnsafe(s[i])
  }

  /** `re.sub(r'[<>:"/\\|?*]', '_', s)`. */
  function Sanitize(s: String): (r: String)
    ensures |r| == |s| && AllSafe(r)
    ensures forall i :: 0 <= i < |s| ==> r[i] == (if IsUnsafe(s[i]) then '_' else s[i])
  {
    seq(|s|, i requires 0 <= i < |s| => if IsUnsafe(s[i]) then '_' else s[i])
  }

  /** `Path(s).name` for a string without `/`: `""` and `"."` both denote
      the current directory, whose name is empty. */
  function PathName(s: String): String
  {
    if s == "" || s == "." then "" else s
  }

  /** Position of the last `.` in `s`, or `-1`. */
  function RFindDot(s: String): (i: int)
    ensures -1 <= i < |s|
    ensures i >= 0 ==> s[i] == '.'
    ensures forall j :: i < j < |s| ==> s[j] != '.'
  {
    if |s| == 0 then -1 else if s[|s| - 1] == '.' then |s| - 1 else RFindDot(s[..|s| - 1])
  }

  /** Whether the name has a suffix: a last dot that is neither the first
      nor the last character. */
  predicate HasSuffix(name: String)
  {
    var i := RFindDot(name);
    0 < i < |name| - 1
  }

  /** `Path(s).suffix`. */
  function Suffix(s: String): (r: String)
    ensures |r| == 0 || (r[0] == '.' && forall j :: 0 < j < |r| ==> r[j] != '.')
    ensures |r| <= |s|
  {
    var name := PathName(s);
    if HasSuffix(name) then name[RFindDot(name)..] else ""
  }

  /** `Path(s).stem`. */
  function Stem(s: String): String
  {
    var name := PathName(s);
    if HasSuffix(name) then name[..RFindDot(name)] else name
  }

  /** Stem and suffix split the name. */
  lemma {:induction false} StemSuffix(s: String)
    ensures Stem(s) + Suffix(s) == PathName(s)
  {
  }

  /** `safe_filename(filename, max_length)`. When the sanitised name is
      too long, its stem is cut to `max_length - len(suffix)` characters
      with Python's slice rules (a negative bound counts from the end) and
      the suffix is put back. */
  function SafeFilename(filename: String, maxLength: int): (r: String)
    ensures AllSafe(r)
    ensures |Sanitize(filename)| <= maxLength ==> r == Sanitize(filename)
    ensures |Sanitize(filename)| > maxLength ==>
              exists cut: nat :: cut <= |Stem(Sanitize(filename))|
                && r == Stem(Sanitize(filename))[..cut] + Suffix(Sanitize(filename))
    ensures |Sanitize(filename)| > maxLength && |Suffix(Sanitize(filename))| <= maxLength ==>
              && r == Stem(Sanitize(filename))[..maxLength - |Suffix(Sanitize(filename))|] + Suffix(Sanitize(filename))
              && |r| == maxLength
    ensures |Sanitize(filename)| > maxLength && |Suffix(Sanitize(filename))| <= maxLength ==>
              |r| <= maxLength && Suffix(Sanitize(filename)) <= r[|r| - |Suffix(Sanitize(filename))|..]
    ensures |Sanitize(filename)| > maxLength && |Suffix(Sanitize(filename))| > maxLength ==>
              var keep := |Stem(Sanitize(filename))| + maxLength - |Suffix(Sanitize(filename))|;
              r == Stem(Sanitize(filename))[..if keep < 0 then 0 else keep] + Suffix(Sanitize(filename))
  {
    var f := Sanitize(filename);
    if |f| > maxLength then
      Truncated(f, maxLength);
      PySlice(Stem(f), 0, maxLength - |Suffix(f)|) + Suffix(f)
    else
      f
  }

  /** The truncated name `name[:max_length - len(ext)] + ext` of a safe
      name that is too long. */
  lemma {:induction false} Truncated(f: String, maxLength: int)
    requires AllSafe(f) && |f| > maxLength
    ensures var r := PySlice(Stem(f), 0, maxLength - |Suffix(f)|) + Suffix(f);
            && AllSafe(r)
            && (exists cut: nat :: cut <= |Stem(f)| && r == Stem(f)[..cut] + Suffix(f))
            && (|Suffix(f)| <= maxLength ==>
                  && |r| <= maxLength && Suffix(f) <= r[|r| - |Suffix(f)|..]
                  && r == Stem(f)[..maxLength - |Suffix(f)|] + Suffix(f)
                  && |r| == maxLength)
            && (|Suffix(f)| > maxLength ==>
                  var keep := |Stem(f)| + maxLength - |Suffix(f)|;
                  r == Stem(f)[..if keep < 0 then 0 else keep] + Suffix(f))
  {
    var name := Stem(f);
    var ext := Suffix(f);
    var head := PySlice(name, 0, maxLength - |ext|);
    var r := head + ext;
    CutAt(f, maxLength);
    assert head == name[..|head|];
    assert AllSafe(name[..|head|]) by { StemSuffix(f); assert name <= PathName(f); }
    assert AllSafe(ext) by { StemSuffix(f); assert ext == PathName(f)[|name|..]; }
    assert r[|r| - |ext|..] == ext;
  }

  /** Where `name[:max_length - len(ext)]` cuts the stem of a name that is
      too long: at `max_length - len(ext)` when the suffix fits, so that the
      result is exactly `max_length` long, and else that many characters
      before the end of the stem, or at its start. */
  lemma {:induction false} CutAt(f: String, maxLength: int)
    requires |f| > maxLength
    ensures var b := maxLength - |Suffix(f)|;
            && (b >= 0 ==> b <= |Stem(f)| && PySlice(Stem(f), 0, b) == Stem(f)[..b]
                           && |Stem(f)[..b] + Suffix(f)| == maxLength)
            && (b < 0 ==> PySlice(Stem(f), 0, b) == Stem(f)[..if |Stem(f)| + b < 0 then 0 else |Stem(f)| + b])
  {
    StemSuffix(f);
    assert |PathName(f)| == |f| || (f == "." && maxLength <= 0) || f == "";
  }

  /** A safe name that fits is returned unchanged. */
  lemma {:induction false} FitsUnchanged(name: String, maxLength: int)
    requires AllSafe(name) && |name| <= maxLength
    ensures SafeFilename(name, maxLength) == name
  {
    assert Sanitize(name) == name;
  }

  /** Whenever the suffix fits in `max_length`, applying `safe_filename`
      to its own output changes nothing. */
  lemma {:induction false} Idempotent(filename: String, maxLength: int)
    requires |Suffix(Sanitize(filename))| <= maxLength
    ensures SafeFilename(SafeFilename(filename, maxLength), maxLength) == SafeFilename(filename, maxLength)
  {
    var r := SafeFilename(filename, maxLength);
    FitsUnchanged(r, maxLength);
  }
}
