/** The avatar initials of the sidebar's user profile. */
module Profile {
  import opened Wrappers
  import opened Text

  /** `name || email || ""`: the first of the two that is present and non-empty. */
  function InitialsSource(name: Option<string>, email: Option<string>): (r: string)
    ensures name.Some? && name.value != "" ==> r == name.value
    ensures (name.None? || name.value == "") && email.Some? && email.value != "" ==> r == email.value
    ensures (name.None? || name.value == "") && (email.None? || email.value == "") ==> r == ""
  {
    if name.Some? && name.value != "" then name.value
    else if email.Some? && email.value != "" then email.value
    else ""
  }

  /** `split(" ")`: the pieces between single spaces, empty pieces included. */
  function Split(s: string): (r: seq<string>)
    ensures |r| >= 1
    ensures forall k :: 0 <= k < |r| ==> ' ' !in r[k]
    decreases |s|
  {
    if |s| == 0 then [""]
    else if s[0] == ' ' then [""] + Split(s[1..])
    else
      var rest := Split(s[1..]);
      [[s[0]] + rest[0]] + rest[1..]
  }

  /** `join(" ")`. */
  function Join(pieces: seq<string>): string
    requires |pieces| >= 1
  {
    if |pieces| == 1 then pieces[0] else pieces[0] + " " + Join(pieces[1..])
  }

  /** Joining the pieces again gives back the text: `split` loses nothing. */
  lemma {:induction false} JoinSplit(s: string)
    ensures Join(Split(s)) == s
    decreases |s|
  {
    if |s| > 0 {
      JoinSplit(s[1..]);
      var rest := Split(s[1..]);
      if s[0] == ' ' {
        assert Split(s)[1..] == rest;
      } else {
        var r := Split(s);
        assert r[1..] == rest[1..];
        if |rest| > 1 {
          assert Join(rest) == rest[0] + " " + Join(rest[1..]);
        }
      }
    }
  }

  /** `map((n) => n[0]).join("")`: the first character of each piece; an empty
      piece gives `undefined`, which `join` writes as nothing. */
  function FirstChars(pieces: seq<string>): (r: string)
    ensures |r| <= |pieces|
  {
    if |pieces| == 0 then ""
    else (if |pieces[0]| == 0 then "" else [pieces[0][0]]) + FirstChars(pieces[1..])
  }

  /** `(name || email || "").split(" ").map((n) => n[0]).join("").toUpperCase()`. */
  function Initials(name: Option<string>, email: Option<string>): (r: string)
    ensures forall k :: 0 <= k < |r| ==> !IsAsciiLower(r[k])
  {
    Upper(FirstChars(Split(InitialsSource(name, email))))
  }

  /** The number of pieces that are not empty. */
  function CountNonEmpty(pieces: seq<string>): nat {
    if |pieces| == 0 then 0 else (if |pieces[0]| == 0 then 0 else 1) + CountNonEmpty(pieces[1..])
  }

  lemma {:induction false} FirstCharsLength(pieces: seq<string>)
    ensures |FirstChars(pieces)| == CountNonEmpty(pieces)
  {
    if |pieces| > 0 {
      FirstCharsLength(pieces[1..]);
    }
  }

  /** A reference reading of the initials without `split`: the characters that
      are not spaces and follow a space or the start of the text. */
  function WordStarts(s: string, atStart: bool): (r: string)
    ensures forall c :: c in r ==> c in s && c != ' '
  {
    if |s| == 0 then ""
    else if s[0] == ' ' then
      assert forall c :: c in s[1..] ==> c in s;
      WordStarts(s[1..], true)
    else
      assert forall c :: c in s[1..] ==> c in s;
      (if atStart then [s[0]] else "") + WordStarts(s[1..], false)
  }

  lemma {:induction false} FirstCharsOfSplit(s: string)
    ensures FirstChars(Split(s)) == WordStarts(s, true)
    ensures FirstChars(Split(s)[1..]) == WordStarts(s, false)
    decreases |s|
  {
    if |s| > 0 {
      FirstCharsOfSplit(s[1..]);
      var rest := Split(s[1..]);
      var r := Split(s);
      if s[0] == ' ' {
        assert r[1..] == rest;
      } else {
        assert r[1..] == rest[1..];
      }
    }
  }

  /** The initials are the upper-cased first characters of the words, one per
      non-empty piece: runs of spaces add nothing, and no source gives "". */
  lemma InitialsAreWordStarts(name: Option<string>, email: Option<string>)
    ensures Initials(name, email) == Upper(WordStarts(InitialsSource(name, email), true))
    ensures |Initials(name, email)| == CountNonEmpty(Split(InitialsSource(name, email)))
    ensures ' ' !in Initials(name, email)
    ensures InitialsSource(name, email) == "" ==> Initials(name, email) == ""
  {
    var src := InitialsSource(name, email);
    FirstCharsOfSplit(src);
    FirstCharsLength(Split(src));
    var w := WordStarts(src, true);
    var r := Initials(name, email);
    forall k | 0 <= k < |r|
      ensures r[k] != ' '
    {
      assert w[k] in w;
    }
  }
}
