/** The body acceptor as body.c runs it: one buffer filled in place. */
module BodyBuffer {
  import opened Bytes
  import opened Registry
  import opened Body
  import Base64

  class Buffer {
    const sha: Hash
    var bytes: array<Byte>
    var length: nat
    var used: nat
    var hash: seq<Byte>
    var id: string
    var active: bool
    var complete: bool
    var failed: bool

    ghost predicate Valid()
      reads this
    {
      used <= length <= bytes.Length
    }

    ghost function View(): Upload
      requires Valid()
      reads this, bytes
    {
      Upload(id, length, hash, bytes[..used], active, complete, failed)
    }

    constructor (sha: Hash)
      ensures Valid() && View() == IDLE && this.sha == sha && fresh(bytes)
    {
      this.sha := sha;
      bytes := new Byte[0];
      length, used, hash, id := 0, 0, [], "";
      active, complete, failed := false, false, false;
    }

    method Reset()
      requires Valid()
      modifies this
      ensures Valid() && View() == Body.Clear(old(View())) && fresh(bytes)
    {
      bytes := new Byte[0];
      length, used, hash, id := 0, 0, [], "";
      active, complete := false, false;
    }

    method Reject() returns (ok: bool)
      requires Valid()
      modifies this
      ensures Valid() && View() == POISONED && !ok && fresh(bytes)
    {
      failed := true;
      Reset();
      ok := false;
    }

    method Begin(id: string, length: nat, digest: string, memory: bool) returns (ok: bool)
      requires Valid() && UploadInv(sha, View())
      modifies this
      ensures Valid() && View() == Body.Begin(old(View()), id, length, digest, memory)
      ensures ok == !failed
    {
      var digestBytes := Unhex(digest);
      if failed || active || !Identifier(id) || length > BODY_MAX || |digest| != 64 || digestBytes.None? ||
         (length > 0 && !memory) {
        ok := Reject();
        return;
      }
      hash := digestBytes.value;
      bytes := new Byte[length];
      this.id, this.length, active, ok := id, length, true, true;
    }

    method Chunk(id: string, offset: nat, text: string) returns (ok: bool)
      requires Valid() && UploadInv(sha, View())
      modifies this, bytes
      ensures Valid() && View() == Body.Chunk(old(View()), id, offset, text)
      ensures ok == !failed
    {
      hide Base64.Decode;
      if failed || !active || complete || !Identifier(id) || this.id != id || offset != used {
        ok := Reject();
        return;
      }
      var decoded;
      ok, decoded := Base64.DecodeInto(text, bytes, used, length - used);
      if !ok { ok := Reject(); return; }
      used := used + decoded;
      assert bytes[..used] == old(bytes[..used]) + Base64.Decode(text).value;
    }

    method End(id: string) returns (ok: bool)
      requires Valid() && UploadInv(sha, View())
      modifies this
      ensures Valid() && View() == Body.End(sha, old(View()), id)
      ensures ok == !failed
    {
      if failed || !active || complete || !Identifier(id) || this.id != id || used != length
        || sha(bytes[..used]) != hash {
        ok := Reject();
        return;
      }
      complete, ok := true, true;
    }
  }
}
