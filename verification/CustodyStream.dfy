/** The two loops that read an object's bytes piece by piece: receiving an upload and re-reading a stored file. */
module CustodyStream {
  import opened Base
  import opened CustodyStore

  const MAX_U64: nat := 0xFFFF_FFFF_FFFF_FFFF

  /** The pieces up to and not including the first that failed to arrive. */
  function Arrived(pieces: seq<Option<string>>): string {
    if pieces == [] || pieces[0].None? then "" else pieces[0].value + Arrived(pieces[1..])
  }

  predicate AllArrived(pieces: seq<Option<string>>) { forall i :: 0 <= i < |pieces| ==> pieces[i].Some? }

  lemma {:induction false} ArrivedSnoc(pieces: seq<Option<string>>, n: nat)
    requires n < |pieces| && AllArrived(pieces[..n + 1])
    ensures AllArrived(pieces[..n]) && Arrived(pieces[..n + 1]) == Arrived(pieces[..n]) + pieces[n].value
    decreases n
  {
    assert forall i :: 0 <= i <= n ==> pieces[..n + 1][i] == pieces[i];
    if n > 0 {
      assert pieces[..n + 1][1..] == pieces[1..][..n] && pieces[..n][1..] == pieces[1..][..n - 1];
      ArrivedSnoc(pieces[1..], n - 1);
    } else {
      assert pieces[..1][1..] == [];
    }
  }

  lemma {:induction false} ArrivedGrows(pieces: seq<Option<string>>, n: nat)
    requires n <= |pieces| && AllArrived(pieces)
    ensures |Arrived(pieces[..n])| <= |Arrived(pieces)|
    decreases |pieces| - n
  {
    if n < |pieces| {
      ArrivedSnoc(pieces, n);
      ArrivedGrows(pieces, n + 1);
    } else {
      assert pieces[..n] == pieces;
    }
  }

  /** The upload is kept exactly when every piece arrives and the whole has the admitted length and digest;
      giving up at the first byte too many loses nothing. */
  method ReceiveBody(env: Env, a: Admission, pieces: seq<Option<string>>) returns (kept: Option<string>)
    requires a.byteLength <= MAX_U64
    ensures kept == if AllArrived(pieces) && Matches(env, a, Arrived(pieces)) then Some(Arrived(pieces)) else None
  {
    hide Arrived;
    var file, hashed, length := "", "", 0;
    assert pieces[..0] == [];
    ArrivedNone();
    for n := 0 to |pieces|
      invariant AllArrived(pieces[..n]) && file == hashed == Arrived(pieces[..n]) && length == |file| <= a.byteLength
    {
      if pieces[n].None? {
        return None;
      }
      var chunk := pieces[n].value;
      assert forall i :: 0 <= i < n ==> pieces[i] == pieces[..n][i];
      ArrivedSnoc(pieces, n);
      if AllArrived(pieces) { ArrivedGrows(pieces, n + 1); }
      if length + |chunk| > MAX_U64 {
        return None;
      }
      length := length + |chunk|;
      if length > a.byteLength {
        return None;
      }
      file := file + chunk;
      hashed := hashed + chunk;
    }
    assert pieces[..|pieces|] == pieces;
    if length != a.byteLength || env.digest(hashed) != a.contentHash {
      return None;
    }
    return Some(file);
  }

  lemma {:induction false} ArrivedNone()
    ensures Arrived([]) == ""
  {
  }

  datatype Verdict = Absent | Durable | Conflicting

  /** A stored file passes exactly when it matches its admission, however short the reads. */
  method VerifyFile(env: Env, a: Admission, stored: Option<string>) returns (verdict: Verdict)
    ensures verdict == if stored.None? then Absent else if Matches(env, a, stored.value) then Durable else Conflicting
  {
    if stored.None? {
      return Absent;
    }
    if |stored.value| != a.byteLength {
      return Conflicting;
    }
    var left, hashed, length := stored.value, "", 0;
    while left != ""
      invariant hashed + left == stored.value && length == |hashed|
      decreases |left|
    {
      var n: nat :| 1 <= n <= 128 * 1024 && n <= |left|;
      length := length + n;
      hashed := hashed + left[..n];
      left := left[n..];
    }
    assert hashed == stored.value;
    if length != a.byteLength || env.digest(hashed) != a.contentHash {
      return Conflicting;
    }
    return Durable;
  }
}
