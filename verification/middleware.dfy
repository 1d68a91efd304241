/** Request authentication (middlewares/auth.js): the `Authorization:
    Bearer` header gate and the two role gates. The header check is the
    case-sensitive form of the Bearer scheme of section 2.1 of RFC 6750.
    Token verification is the parameter `verify`. */
module Middleware {
  import opened Common
  import opened Store

  predicate StartsWith(s: string, prefix: string) {
    |prefix| <= |s| && s[..|prefix|] == prefix
  }

  predicate NoSpace(s: string) {
    forall k | 0 <= k < |s| :: s[k] != ' '
  }

  /** `s.split(" ")`: the pieces between single spaces, empty pieces
      included; there is always at least one. */
  function Split(s: string): (r: seq<string>)
    ensures |r| >= 1
    ensures forall k | 0 <= k < |r| :: NoSpace(r[k])
  {
    if s == [] then [""]
    else
      var rest := Split(s[1..]);
      if s[0] == ' ' then [""] + rest
      else
        assert forall k | 1 <= k < |rest| :: rest[1..][k - 1] == rest[k];
        [[s[0]] + rest[0]] + rest[1..]
  }

  /** `pieces.join(" ")`. */
  function Join(pieces: seq<string>): string
    requires |pieces| >= 1
  {
    if |pieces| == 1 then pieces[0] else pieces[0] + " " + Join(pieces[1..])
  }

  /** Splitting loses nothing: joining the pieces gives the header back. */
  lemma {:induction false} JoinSplit(s: string)
    ensures Join(Split(s)) == s
  {
    if s != [] {
      JoinSplit(s[1..]);
      var rest := Split(s[1..]);
      if s[0] != ' ' {
        var r := Split(s);
        assert r[0] == [s[0]] + rest[0] && r[1..] == rest[1..];
        if |rest| > 1 {
          assert Join(rest) == rest[0] + " " + Join(rest[1..]);
        }
      } else {
        assert Split(s)[1..] == rest;
      }
    }
  }

  /** And pieces without spaces come back from their join unchanged. */
  lemma {:induction false} SplitJoin(pieces: seq<string>)
    requires |pieces| >= 1
    requires forall k | 0 <= k < |pieces| :: NoSpace(pieces[k])
    ensures Split(Join(pieces)) == pieces
    decreases |pieces|, |pieces[0]|
  {
    var p := pieces[0];
    if p == [] {
      if |pieces| > 1 {
        SplitJoin(pieces[1..]);
        assert Join(pieces) == " " + Join(pieces[1..]);
      }
    } else {
      var shorter := [p[1..]] + pieces[1..];
      assert NoSpace(p[1..]) by {
        forall k | 0 <= k < |p[1..]| ensures p[1..][k] != ' ' { assert p[1..][k] == p[k + 1]; }
      }
      assert forall k | 1 <= k < |shorter| :: shorter[k] == pieces[k];
      SplitJoin(shorter);
      assert shorter[1..] == pieces[1..];
      assert Join(pieces) == [p[0]] + Join(shorter);
      assert Join(pieces)[1..] == Join(shorter);
      assert p == [p[0]] + p[1..];
    }
  }

  /** A string with a space in it splits into at least two pieces. */
  lemma {:induction false} SpaceSplits(s: string, i: nat)
    requires i < |s| && s[i] == ' '
    ensures |Split(s)| >= 2
  {
    if i > 0 && s[0] != ' ' {
      SpaceSplits(s[1..], i - 1);
    }
  }

  /** What verifying a token gives: its claims, `null` (an invalid or
      expired token, the library's own exceptions included), or an
      exception from elsewhere in the middleware's `try` block. */
  datatype Verified = Decoded(claims: Claims) | Invalid | Raised

  /** The bearer token: the second space-separated piece of the header. */
  function TokenOf(header: string): string
    requires StartsWith(header, "Bearer ")
  {
    assert header[..7][6] == ' ';
    SpaceSplits(header, 6);
    Split(header)[1]
  }

  /** A space-free token behind the exact prefix is the token read. */
  lemma TokenOfBearer(t: string)
    requires NoSpace(t)
    ensures StartsWith("Bearer " + t, "Bearer ")
    ensures TokenOf("Bearer " + t) == t
  {
    assert NoSpace("Bearer");
    SplitJoin(["Bearer", t]);
    assert Join(["Bearer", t]) == "Bearer " + t;
  }

  /** `auth`: the claims of a request that may go on, or why not. */
  function Auth(header: Option<string>, verify: string -> Verified): (r: Outcome<Claims>)
    ensures (header.None? || !StartsWith(header.value, "Bearer ")) <==>
      r == Err(401, "Akses ditolak. Token tidak ditemukan")
    ensures r.Ok? <==>
      header.Some? && StartsWith(header.value, "Bearer ") && verify(TokenOf(header.value)).Decoded?
    ensures r.Ok? ==> r.value == verify(TokenOf(header.value)).claims
    ensures r == Err(403, "Akses ditolak. Token tidak valid") <==>
      header.Some? && StartsWith(header.value, "Bearer ") && verify(TokenOf(header.value)).Invalid?
    ensures r == Err(401, "Akses ditolak. Silakan login kembali") <==>
      header.Some? && StartsWith(header.value, "Bearer ") && verify(TokenOf(header.value)).Raised?
  {
    if header.None? || !StartsWith(header.value, "Bearer ") then
      Err(401, "Akses ditolak. Token tidak ditemukan")
    else
      match verify(TokenOf(header.value)) {
        case Invalid => Err(403, "Akses ditolak. Token tidak valid")
        case Raised => Err(401, "Akses ditolak. Silakan login kembali")
        case Decoded(c) => Ok(c)
      }
  }

  /** The scheme name is matched case-sensitively. */
  lemma LowercaseSchemeRejected(verify: string -> Verified)
    ensures Auth(Some("bearer abc"), verify) == Err(401, "Akses ditolak. Token tidak ditemukan")
  {
    assert "bearer abc"[..7][0] != "Bearer "[0];
  }

  /** A token the verifier accepts, sent as `Bearer <token>`, lets the
      request through carrying exactly the token's claims. */
  lemma BearerTokenAccepted(t: string, verify: string -> Verified, c: Claims)
    requires NoSpace(t) && verify(t) == Decoded(c)
    ensures Auth(Some("Bearer " + t), verify) == Ok(c)
  {
    TokenOfBearer(t);
  }

  /** `isPelanggan`. */
  function IsPelanggan(c: Claims): (r: Outcome<Claims>)
    ensures r.Ok? <==> c.role == Pelanggan
    ensures r.Ok? ==> r.value == c
    ensures r.Err? ==> r == Err(403, "Akses ditolak. Hanya pelanggan yang diizinkan")
  {
    if c.role != Pelanggan then Err(403, "Akses ditolak. Hanya pelanggan yang diizinkan") else Ok(c)
  }

  /** `isPetugas`. */
  function IsPetugas(c: Claims): (r: Outcome<Claims>)
    ensures r.Ok? <==> c.role == Petugas
    ensures r.Ok? ==> r.value == c
    ensures r.Err? ==> r == Err(403, "Akses ditolak. Hanya petugas yang diizinkan")
  {
    if c.role != Petugas then Err(403, "Akses ditolak. Hanya petugas yang diizinkan") else Ok(c)
  }

  /** The two role gates exclude each other: no request passes both. */
  lemma GatesDisjoint(c: Claims)
    ensures !(IsPelanggan(c).Ok? && IsPetugas(c).Ok?)
  {
  }
}
