/** The canonical writer and reader of include/collectivefabric/digest/canonical.hpp, and the
    parsing functions that specify them. */
module Canonical {
  import opened Bytes

  /** Why a payload is refused. */
  datatype Fault =
    | Truncated | UnsupportedVersion | InvalidCount | InvalidEnum | Duplicate | TrailingGarbage
    | LooseBoolean  // only in strict mode, which the source does not have

  /** A value read off the front of the input, and the input that remains. */
  datatype Parsed<+T> = Ok(value: T, rest: seq<byte>) | Err(fault: Fault) {
    predicate IsFailure() { Err? }
    function PropagateFailure<U>(): Parsed<U> requires Err? { Err(fault) }
    function Extract(): (T, seq<byte>) requires Ok? { (value, rest) }

    /** The same result with t left unread behind it. */
    function With(t: seq<byte>): Parsed<T> {
      match this
      case Ok(v, r) => Ok(v, r + t)
      case Err(f) => this
    }
  }

  // ---------------------------------------------------------------- encodings

  function U64Bytes(v: u64): (bs: seq<byte>)
    ensures |bs| == 8
  {
    ToBE(v, 8)
  }

  function BoolBytes(b: bool): seq<byte> { [if b then 1 else 0] }

  function StringBytes(s: seq<byte>): seq<byte> { ToBE(|s|, 8) + s }

  function U64sBytes(vs: seq<u64>): seq<byte> {
    if vs == [] then [] else U64Bytes(vs[0]) + U64sBytes(vs[1..])
  }

  function ListBytes<T>(enc: T -> seq<byte>, xs: seq<T>): seq<byte> {
    if xs == [] then [] else enc(xs[0]) + ListBytes(enc, xs[1..])
  }

  lemma {:induction false} ListBytesAppend<T>(enc: T -> seq<byte>, xs: seq<T>, x: T)
    ensures ListBytes(enc, xs + [x]) == ListBytes(enc, xs) + enc(x)
  {
    if xs == [] {
      assert xs + [x] == [x] && [x][1..] == [];
      assert ListBytes(enc, [x]) == enc(x) + [];
    } else {
      ListBytesAppend(enc, xs[1..], x);
      assert (xs + [x])[1..] == xs[1..] + [x];
    }
  }

  // ---------------------------------------------------------------- parsers

  function GetU8(s: seq<byte>): Parsed<byte> {
    if |s| < 1 then Err(Truncated) else Ok(s[0], s[1..])
  }

  function GetU64(s: seq<byte>): Parsed<u64> {
    if |s| < 8 then Err(Truncated)
    else
      Pow256Widths();
      Ok(FromBE(s[..8]), s[8..])
  }

  /** Any non-zero byte reads as true; strict mode accepts only 0 and 1. */
  function GetBool(strict: bool, s: seq<byte>): Parsed<bool> {
    var (b, r) :- GetU8(s);
    if strict && b > 1 then Err(LooseBoolean) else Ok(b != 0, r)
  }

  function GetString(s: seq<byte>): Parsed<seq<byte>> {
    var (n, r) :- GetU64(s);
    if n > |r| then Err(Truncated) else Ok(r[..n], r[n..])
  }

  /** n integers in a row. */
  function GetU64s(n: nat, s: seq<byte>): (p: Parsed<seq<u64>>)
    ensures p.Ok? ==> |p.value| == n
  {
    if n == 0 then Ok([], s)
    else
      var (v, r) :- GetU64(s);
      var (vs, r') :- GetU64s(n - 1, r);
      Ok([v] + vs, r')
  }

  /** n records in a row, each required to be new with respect to those before it. */
  function GetList<T>(n: nat, p: (bool, seq<byte>) -> Parsed<T>, isNew: (seq<T>, T) -> bool,
                      strict: bool, acc: seq<T>, s: seq<byte>): Parsed<seq<T>>
    decreases n
  {
    if n == 0 then Ok(acc, s)
    else
      var (x, r) :- p(strict, s);
      if !isNew(acc, x) then Err(Duplicate)
      else GetList(n - 1, p, isNew, strict, acc + [x], r)
  }

  ghost predicate EachNew<T>(isNew: (seq<T>, T) -> bool, xs: seq<T>, from: nat) {
    forall i :: from <= i < |xs| ==> isNew(xs[..i], xs[i])
  }

  // ---------------------------------------------------------------- laws of the primitives

  lemma U64Forward(v: u64, rest: seq<byte>)
    ensures GetU64(U64Bytes(v) + rest) == Ok(v, rest)
  {
    var s := U64Bytes(v) + rest;
    assert s[..8] == U64Bytes(v) && s[8..] == rest;
    Pow256Widths();
    FromBEToBE(v, 8);
  }

  lemma U64Inverse(s: seq<byte>)
    requires GetU64(s).Ok?
    ensures s == U64Bytes(GetU64(s).value) + GetU64(s).rest
  {
    ToBEFromBE(s[..8]);
    assert s == s[..8] + s[8..];
  }

  lemma U64Extend(s: seq<byte>, t: seq<byte>)
    requires GetU64(s).Ok?
    ensures GetU64(s + t) == GetU64(s).With(t)
  {
    assert (s + t)[..8] == s[..8] && (s + t)[8..] == s[8..] + t;
  }

  lemma U8Laws(b: byte, s: seq<byte>, t: seq<byte>)
    ensures GetU8([b] + t) == Ok(b, t)
    ensures GetU8(s).Ok? ==> s == [GetU8(s).value] + GetU8(s).rest && GetU8(s + t) == GetU8(s).With(t)
  {
    assert ([b] + t)[1..] == t;
    if s != [] {
      assert (s + t)[1..] == s[1..] + t;
    }
  }

  lemma BoolForward(strict: bool, b: bool, rest: seq<byte>)
    ensures GetBool(strict, BoolBytes(b) + rest) == Ok(b, rest)
  {
    assert (BoolBytes(b) + rest)[1..] == rest;
  }

  lemma BoolInverse(s: seq<byte>)
    requires GetBool(true, s).Ok?
    ensures s == BoolBytes(GetBool(true, s).value) + GetBool(true, s).rest
  {
  }

  lemma BoolExtend(strict: bool, s: seq<byte>, t: seq<byte>)
    requires GetBool(strict, s).Ok?
    ensures GetBool(strict, s + t) == GetBool(strict, s).With(t)
  {
    U8Laws(0, s, t);
  }

  lemma StringForward(v: seq<byte>, rest: seq<byte>)
    requires |v| < U64_LIMIT
    ensures GetString(StringBytes(v) + rest) == Ok(v, rest)
  {
    assert StringBytes(v) + rest == U64Bytes(|v|) + (v + rest);
    U64Forward(|v|, v + rest);
    assert (v + rest)[..|v|] == v && (v + rest)[|v|..] == rest;
  }

  lemma StringInverse(s: seq<byte>)
    requires GetString(s).Ok?
    ensures |GetString(s).value| < U64_LIMIT
    ensures s == StringBytes(GetString(s).value) + GetString(s).rest
  {
    U64Inverse(s);
    var Ok(n, r) := GetU64(s);
    assert r == r[..n] + r[n..];
  }

  lemma StringExtend(s: seq<byte>, t: seq<byte>)
    requires GetString(s).Ok?
    ensures GetString(s + t) == GetString(s).With(t)
  {
    U64Extend(s, t);
    var Ok(n, r) := GetU64(s);
    assert (r + t)[..n] == r[..n] && (r + t)[n..] == r[n..] + t;
  }

  lemma {:induction false} U64sForward(vs: seq<u64>, rest: seq<byte>)
    ensures GetU64s(|vs|, U64sBytes(vs) + rest) == Ok(vs, rest)
    decreases |vs|
  {
    if vs == [] {
      assert U64sBytes(vs) + rest == rest;
    } else {
      assert U64sBytes(vs) + rest == U64Bytes(vs[0]) + (U64sBytes(vs[1..]) + rest);
      U64Forward(vs[0], U64sBytes(vs[1..]) + rest);
      U64sForward(vs[1..], rest);
      assert [vs[0]] + vs[1..] == vs;
    }
  }

  lemma {:induction false} U64sInverse(n: nat, s: seq<byte>)
    requires GetU64s(n, s).Ok?
    ensures s == U64sBytes(GetU64s(n, s).value) + GetU64s(n, s).rest
    decreases n
  {
    if n > 0 {
      U64Inverse(s);
      U64sInverse(n - 1, GetU64(s).rest);
    }
  }

  lemma {:induction false} U64sExtend(n: nat, s: seq<byte>, t: seq<byte>)
    requires GetU64s(n, s).Ok?
    ensures GetU64s(n, s + t) == GetU64s(n, s).With(t)
    decreases n
  {
    if n > 0 {
      U64Extend(s, t);
      U64sExtend(n - 1, GetU64(s).rest, t);
    }
  }

  // ---------------------------------------------------------------- laws of lists

  lemma {:induction false} ListForward<T(!new)>(
      xs: seq<T>, enc: T -> seq<byte>, p: (bool, seq<byte>) -> Parsed<T>, isNew: (seq<T>, T) -> bool,
      strict: bool, acc: seq<T>, rest: seq<byte>)
    requires forall x, r :: x in xs ==> p(strict, enc(x) + r) == Ok(x, r)
    requires EachNew(isNew, acc + xs, |acc|)
    ensures GetList(|xs|, p, isNew, strict, acc, ListBytes(enc, xs) + rest) == Ok(acc + xs, rest)
    decreases |xs|
  {
    var s := ListBytes(enc, xs) + rest;
    if xs == [] {
      assert s == rest && acc + xs == acc;
    } else {
      var x, tail := xs[0], xs[1..];
      assert s == enc(x) + (ListBytes(enc, tail) + rest);
      assert (acc + xs)[..|acc|] == acc && (acc + xs)[|acc|] == x;
      assert acc + [x] + tail == acc + xs;
      ListForward(tail, enc, p, isNew, strict, acc + [x], rest);
    }
  }

  lemma {:induction false} ListShape<T(!new)>(
      n: nat, p: (bool, seq<byte>) -> Parsed<T>, isNew: (seq<T>, T) -> bool,
      strict: bool, acc: seq<T>, s: seq<byte>, good: T -> bool)
    requires GetList(n, p, isNew, strict, acc, s).Ok?
    requires forall s :: p(strict, s).Ok? ==> good(p(strict, s).value)
    ensures var v := GetList(n, p, isNew, strict, acc, s).value;
            |v| == |acc| + n && acc <= v && EachNew(isNew, v, |acc|)
            && forall i :: |acc| <= i < |v| ==> good(v[i])
    decreases n
  {
    if n > 0 {
      var Ok(x, r) := p(strict, s);
      ListShape(n - 1, p, isNew, strict, acc + [x], r, good);
      var v := GetList(n, p, isNew, strict, acc, s).value;
      assert v[..|acc|] == acc && v[|acc|] == x;
    }
  }

  lemma {:induction false} ListInverse<T(!new)>(
      n: nat, enc: T -> seq<byte>, p: (bool, seq<byte>) -> Parsed<T>, isNew: (seq<T>, T) -> bool,
      acc: seq<T>, s: seq<byte>)
    requires GetList(n, p, isNew, true, acc, s).Ok?
    requires forall s :: p(true, s).Ok? ==> s == enc(p(true, s).value) + p(true, s).rest
    ensures var Ok(v, r) := GetList(n, p, isNew, true, acc, s);
            |acc| <= |v| && acc == v[..|acc|] && s == ListBytes(enc, v[|acc|..]) + r
    decreases n
  {
    var Ok(v, r) := GetList(n, p, isNew, true, acc, s);
    if n > 0 {
      var Ok(x, r1) := p(true, s);
      ListInverse(n - 1, enc, p, isNew, acc + [x], r1);
      assert v[|acc|..] == [x] + v[|acc| + 1..];
      assert ListBytes(enc, v[|acc|..]) == enc(x) + ListBytes(enc, v[|acc| + 1..]);
    }
  }

  lemma {:induction false} ListExtend<T(!new)>(
      n: nat, p: (bool, seq<byte>) -> Parsed<T>, isNew: (seq<T>, T) -> bool,
      strict: bool, acc: seq<T>, s: seq<byte>, t: seq<byte>)
    requires GetList(n, p, isNew, strict, acc, s).Ok?
    requires forall s {:trigger p(strict, s + t)} :: p(strict, s).Ok? ==> p(strict, s + t) == p(strict, s).With(t)
    ensures GetList(n, p, isNew, strict, acc, s + t) == GetList(n, p, isNew, strict, acc, s).With(t)
    decreases n
  {
    if n > 0 {
      var Ok(x, r) := p(strict, s);
      ListExtend(n - 1, p, isNew, strict, acc + [x], r, t);
    }
  }

  // ---------------------------------------------------------------- writer

  class CanonicalWriter {
    var buf: seq<byte>

    constructor ()
      ensures buf == []
    {
      buf := [];
    }

    method U8(v: byte)
      modifies this
      ensures buf == old(buf) + [v]
    {
      buf := buf + [v];
    }

    method U64(v: u64)
      modifies this
      ensures buf == old(buf) + U64Bytes(v)
    {
      buf := PushBE(buf, v, 8);
    }

    method Boolean(v: bool)
      modifies this
      ensures buf == old(buf) + BoolBytes(v)
    {
      U8(if v then 1 else 0);
    }

    method String(s: seq<byte>)
      modifies this
      ensures buf == old(buf) + StringBytes(s)
    {
      buf := PushBE(buf, |s|, 8);
      buf := buf + s;
    }

    /** Several `u64` calls in a row. */
    method U64s(vs: seq<u64>)
      modifies this
      ensures buf == old(buf) + U64sBytes(vs)
    {
      var i := 0;
      while i < |vs|
        invariant 0 <= i <= |vs|
        invariant buf + U64sBytes(vs[i..]) == old(buf) + U64sBytes(vs)
      {
        assert vs[i..][1..] == vs[i + 1..];
        U64(vs[i]);
        i := i + 1;
      }
    }
  }

  // ---------------------------------------------------------------- reader

  class CanonicalReader {
    const data: seq<byte>
    var pos: nat

    ghost predicate Valid()
      reads this
    {
      pos <= |data|
    }

    ghost function Rest(): seq<byte>
      requires Valid()
      reads this
    {
      data[pos..]
    }

    constructor (data: seq<byte>)
      ensures Valid() && Rest() == data && this.data == data
    {
      this.data := data;
      pos := 0;
    }

    method AtEnd() returns (b: bool)
      requires Valid()
      ensures b <==> Rest() == []
    {
      b := pos == |data|;
    }

    method U8() returns (ok: bool, v: byte)
      requires Valid()
      modifies this`pos
      ensures Valid() && ok == GetU8(old(Rest())).Ok?
      ensures if ok then GetU8(old(Rest())) == Ok(v, Rest()) else pos == old(pos)
    {
      if |data| - pos < 1 {
        return false, 0;
      }
      ok, v := true, data[pos];
      pos := pos + 1;
    }

    method U64() returns (ok: bool, v: u64)
      requires Valid()
      modifies this`pos
      ensures Valid() && ok == GetU64(old(Rest())).Ok?
      ensures if ok then GetU64(old(Rest())) == Ok(v, Rest()) else pos == old(pos)
    {
      if |data| - pos < 8 {
        return false, 0;
      }
      Pow256Widths();
      ok := true;
      v := ReadBE(data, pos, 8);
      assert data[pos..][..8] == data[pos..pos + 8];
      pos := pos + 8;
    }

    method Boolean() returns (ok: bool, v: bool)
      requires Valid()
      modifies this`pos
      ensures Valid() && ok == GetBool(false, old(Rest())).Ok?
      ensures if ok then GetBool(false, old(Rest())) == Ok(v, Rest()) else pos == old(pos)
    {
      var b;
      ok, b := U8();
      v := b != 0;
    }

    /** On a length that exceeds the input the prefix stays consumed, as in the source. */
    method String() returns (ok: bool, v: seq<byte>)
      requires Valid()
      modifies this`pos
      ensures Valid() && ok == GetString(old(Rest())).Ok?
      ensures ok ==> GetString(old(Rest())) == Ok(v, Rest())
      ensures !ok ==> pos == old(pos) || pos == old(pos) + 8
    {
      var n;
      ok, n := U64();
      if !ok || n > |data| - pos {
        return false, [];
      }
      v := data[pos..pos + n];
      assert data[pos..][..n] == v;
      pos := pos + n;
    }

    /** Several `u64` reads in a row, stopping at the first that fails. */
    method U64s(n: nat) returns (ok: bool, vs: seq<u64>)
      requires Valid()
      modifies this`pos
      ensures Valid() && ok == GetU64s(n, old(Rest())).Ok?
      ensures ok ==> |vs| == n && GetU64s(n, old(Rest())) == Ok(vs, Rest())
    {
      ok, vs := true, [];
      var i := 0;
      assert forall w: seq<u64> :: [] + w == w;
      while i < n
        invariant 0 <= i <= n && Valid() && |vs| == i
        invariant GetU64s(n, old(Rest())) ==
                  match GetU64s(n - i, Rest()) { case Ok(w, r) => Ok(vs + w, r) case Err(f) => Err(f) }
      {
        var v;
        ok, v := U64();
        if !ok {
          return;
        }
        assert forall w: seq<u64> :: vs + ([v] + w) == vs + [v] + w;
        vs := vs + [v];
        i := i + 1;
      }
      assert vs + [] == vs;
    }
  }
}
