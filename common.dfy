/** Shared vocabulary: identities, optional values, HTTP outcomes and the
    string helpers of Go's standard library that the handlers rely on. */
module Common {

  /** Every primary key and user identity is a string (a UUID in practice). */
  type Id = string

  datatype Option<T> = None | Some(value: T)

  /** The HTTP statuses the handlers answer with (fiber's named constants). */
  datatype Status =
    | OK                    // 200
    | Created               // 201
    | BadRequest            // 400
    | Unauthorized          // 401
    | Forbidden             // 403
    | NotFound              // 404
    | UnprocessableEntity   // 422
    | InternalServerError   // 500

  /** The elements of a sequence, as a set. */
  function Elems<T>(s: seq<T>): set<T> {
    set x | x in s
  }

  /** No element occurs twice. */
  predicate NoDup<T(==)>(s: seq<T>) {
    forall i, j :: 0 <= i < j < |s| ==> s[i] != s[j]
  }

  /** A duplicate-free sequence has as many distinct elements as it is long. */
  lemma {:induction false} NoDupCard<T>(s: seq<T>)
    requires NoDup(s)
    ensures |Elems(s)| == |s|
  {
    if s != [] {
      var t := s[1..];
      assert NoDup(t);
      NoDupCard(t);
      assert Elems(s) == Elems(t) + {s[0]};
      forall k | 0 <= k < |t| ensures t[k] != s[0] {
        assert t[k] == s[k + 1];
      }
    }
  }

  /** Appending an element not yet present keeps a sequence duplicate-free. */
  lemma AppendFresh<T>(s: seq<T>, x: T)
    requires NoDup(s) && x !in Elems(s)
    ensures NoDup(s + [x]) && Elems(s + [x]) == Elems(s) + {x}
  {
  }

  /** A set with one membership flipped: what a like or follow toggle does. */
  function Flip<T(!new)>(s: set<T>, x: T): (r: set<T>)
    ensures x in r <==> x !in s
    ensures forall y :: y != x ==> (y in r <==> y in s)
  {
    if x in s then s - {x} else s + {x}
  }

  /** Toggling twice restores the set. */
  lemma FlipTwice<T(!new)>(s: set<T>, x: T)
    ensures Flip(Flip(s, x), x) == s
  {
    var once := Flip(s, x);
    forall y ensures y in Flip(once, x) <==> y in s {
      if y == x {
        assert (y in once) == (y !in s);
      }
    }
  }

  /** unicode.IsSpace: the Latin-1 spaces and the other White_Space code points. */
  predicate IsSpace(c: char) {
    if c as int <= 0xFF then
      (0x09 <= c as int <= 0x0D) || c == ' '
      || c as int == 0x85 || c as int == 0xA0
    else
      c as int == 0x1680 || (0x2000 <= c as int <= 0x200A) || c as int == 0x2028
      || c as int == 0x2029 || c as int == 0x202F || c as int == 0x205F || c as int == 0x3000
  }

  /** Drops the leading white space. */
  function TrimLeft(s: string): (r: string)
    ensures |r| <= |s| && r == s[|s| - |r|..]
    ensures r == [] || !IsSpace(r[0])
    ensures forall i :: 0 <= i < |s| - |r| ==> IsSpace(s[i])
  {
    if |s| > 0 && IsSpace(s[0]) then TrimLeft(s[1..]) else s
  }

  /** Drops the trailing white space. */
  function TrimRight(s: string): (r: string)
    ensures |r| <= |s| && r == s[..|r|]
    ensures r == [] || !IsSpace(r[|r| - 1])
    ensures forall i :: |r| <= i < |s| ==> IsSpace(s[i])
  {
    if |s| > 0 && IsSpace(s[|s| - 1]) then TrimRight(s[..|s| - 1]) else s
  }

  /** strings.TrimSpace: a window of the input with no white space at either end,
      everything cut away on both sides being white space. */
  function TrimSpace(s: string): (r: string)
    ensures exists i, j :: 0 <= i <= j <= |s| && r == s[i..j]
                           && (forall k :: 0 <= k < i ==> IsSpace(s[k]))
                           && (forall k :: j <= k < |s| ==> IsSpace(s[k]))
    ensures r == [] || (!IsSpace(r[0]) && !IsSpace(r[|r| - 1]))
  {
    var l := TrimLeft(s);
    var r := TrimRight(l);
    assert r == s[|s| - |l|..|s| - |l| + |r|];
    r
  }

  /** A string is blank after trimming exactly when every character is white space. */
  lemma BlankIffAllSpace(s: string)
    ensures TrimSpace(s) == "" <==> forall k :: 0 <= k < |s| ==> IsSpace(s[k])
  {
    if forall k :: 0 <= k < |s| ==> IsSpace(s[k]) {
      var i, j :| 0 <= i <= j <= |s| && TrimSpace(s) == s[i..j];
    }
  }

  /** The number of bytes of the character's UTF-8 encoding. */
  function Utf8Width(c: char): nat {
    if c as int < 0x80 then 1
    else if c as int < 0x800 then 2
    else if c as int < 0x10000 then 3
    else 4
  }

  /** Go's len() of a string: the length of its UTF-8 encoding in bytes. */
  function Utf8Len(s: string): (n: nat)
    ensures |s| <= n <= 4 * |s|
    ensures (forall k :: 0 <= k < |s| ==> s[k] as int < 0x80) ==> n == |s|
  {
    if s == [] then 0 else Utf8Width(s[0]) + Utf8Len(s[1..])
  }
}
