/** The globals of firmware/main/auth.c and the request handlers that change them, as an object.
    Every method is tied to the value-level life cycle in Device. */
module BoardAuth {
  import opened Bytes
  import opened MacLayout
  import opened Device

  const ESP_OK: int := 0
  const ESP_FAIL: int := -1

  class AuthState {
    var psk: Key
    var claimed: bool
    var httpRand: seq<byte>
    var httpCounter: nat
    var stored: Option<Key>
    var restarting: bool

    function View(): Board
      reads this
    {
      Board(psk, claimed, httpRand, httpCounter, stored, restarting)
    }

    ghost predicate Valid()
      reads this
    {
      Sane(View())
    }

    /** Power-on: RAM starts out cleared, then the key is read from NVS. */
    method AuthInit(rand: seq<byte>)
      requires Valid() && |rand| == BOOT_RANDOM_LEN
      modifies this
      ensures Valid() && View() == Handle(old(View()), PowerCycle(rand))
    {
      psk, claimed, httpCounter, restarting := NO_KEY, false, 0, false;
      httpRand := rand;
      if stored.Some? {
        psk := stored.value;
        claimed := true;
      }
    }

    method NonceBump()
      requires Valid()
      modifies this`httpCounter
      ensures Valid() && View() == Bump(old(View()))
    {
      httpCounter := (httpCounter + 1) % COUNTER_LIMIT;
    }

    method CheckHttp(path: Path, digest: seq<byte>, auth: Proof) returns (ok: bool)
      requires Valid() && |digest| == DIGEST_LEN
      ensures ok == AuthOk(View(), path, digest, auth)
    {
      var nonce := httpRand + Be32(httpCounter);
      if !claimed || auth.Garbage? {
        return false;
      }
      ok := auth.key == psk && auth.msg == Layout(Auth(path, nonce, digest));
    }

    method CheckHttpPre(path: Path, len: nat, pre: Proof) returns (ok: bool)
      requires Valid() && len < 0x1_0000_0000
      ensures ok == PreOk(View(), path, len, pre)
    {
      var nonce := httpRand + Be32(httpCounter);
      if !claimed || pre.Garbage? {
        return false;
      }
      ok := pre.key == psk && pre.msg == Layout(Pre(path, nonce, len));
    }

    /** auth_claim: `derived` is the key from the exchange, None when the exchange fails. */
    method AuthClaim(derived: Option<Key>, nvs: Nvs) returns (rc: int)
      requires Valid()
      modifies this`psk, this`stored, this`claimed
      ensures Valid() && View() == Claim(old(View()), derived, nvs)
      ensures rc == ESP_OK <==> !old(claimed) && derived.Some? && nvs.Commits?
      ensures rc == ESP_OK ==> claimed && psk == derived.value && stored == derived
      ensures rc != ESP_OK ==> claimed == old(claimed) && stored == old(stored)
      ensures psk == if !old(claimed) && derived.Some? then derived.value else old(psk)
    {
      if claimed {
        return ESP_FAIL;
      }
      if derived.None? {
        return ESP_FAIL;
      }
      psk := derived.value;
      if !nvs.Commits? {
        return ESP_FAIL;
      }
      stored := Some(psk);
      claimed := true;
      rc := ESP_OK;
    }

    method AuthUnclaim(nvs: Nvs) returns (rc: int)
      requires Valid()
      modifies this`psk, this`stored, this`claimed
      ensures Valid() && View() == Device.Unclaim(old(View()), nvs)
      ensures rc == ESP_OK <==> nvs.Commits?
      ensures rc == ESP_OK ==> !claimed && stored.None? && forall i :: 0 <= i < |psk| ==> psk[i] == 0
      ensures rc != ESP_OK ==> claimed == old(claimed) && stored == old(stored) && psk == old(psk)
    {
      if !nvs.Commits? {
        return ESP_FAIL;
      }
      stored := None;
      psk := NO_KEY;
      claimed := false;
      rc := ESP_OK;
    }

    method BothProofs(path: Path, auth: Proof, pre: Proof) returns (ok: bool)
      requires Valid()
      ensures ok == BothOk(View(), path, auth, pre)
    {
      ok := CheckHttpPre(path, 0, pre);
      if ok {
        ok := CheckHttp(path, EMPTY_SHA, auth);
      }
    }

    method RebootPost(auth: Proof, pre: Proof) returns (ok: bool)
      requires Valid() && !restarting
      modifies this`httpCounter
      ensures Valid() && ok == Accepts(old(View()), RebootRequest(auth, pre))
      ensures View() == Handle(old(View()), RebootRequest(auth, pre))
    {
      ok := BothProofs(Reboot, auth, pre);
      if ok {
        NonceBump();
      }
    }

    method UnclaimPost(auth: Proof, pre: Proof, nvs: Nvs) returns (ok: bool)
      requires Valid() && !restarting
      modifies this`psk, this`stored, this`claimed, this`restarting
      ensures Valid() && ok == Accepts(old(View()), UnclaimRequest(auth, pre, nvs))
      ensures View() == Handle(old(View()), UnclaimRequest(auth, pre, nvs))
    {
      ok := BothProofs(MacLayout.Unclaim, auth, pre);
      if !ok {
        return false;
      }
      var rc := AuthUnclaim(nvs);
      if rc != ESP_OK {
        return false;
      }
      restarting := true;
    }

    /** `received` bytes of the body arrived in one receive; `hex` says whether the first 64 of them read as hex pairs. */
    method ClaimPost(received: nat, hex: bool, derived: Option<Key>, nvs: Nvs) returns (ok: bool)
      requires Valid() && !restarting
      modifies this`psk, this`stored, this`claimed
      ensures Valid()
      ensures ok <==> !old(claimed) && received >= 64 && hex && derived.Some? && nvs.Commits?
      ensures View() == if received >= 64 && hex then Handle(old(View()), ClaimRequest(derived, nvs)) else old(View())
    {
      if claimed {
        return false;
      }
      if received < 64 || !hex {
        return false;
      }
      var rc := AuthClaim(derived, nvs);
      ok := rc == ESP_OK;
    }
  }
}
