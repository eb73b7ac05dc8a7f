/** The codec of the vault: module Json's printer and reader, around any digest function. */
module Codecs {
  import opened Wrappers
  import opened Json
  import opened JsonFidelity
  import opened HashChain
  import opened Vault

  function PythonCodec(h: Hash): Codec { Codec(h, (v: Value) => Dumps(v), (t: string) => Loads(t)) }

  /** Whatever a codec prints, it can read and print again. */
  ghost predicate Sound(c: Codec) { forall v: Payload :: Rereadable(c, v) }

  predicate Rereadable(c: Codec, v: Payload) { c.dumps(v).Some? ==> Rewrite(c, c.dumps(v).value).Some? }

  lemma PythonRewrites(h: Hash, text: string)
    ensures Rewrite(PythonCodec(h), text) == Redump(text)
  {
  }

  lemma PythonIsSound(h: Hash)
    ensures Sound(PythonCodec(h))
  {
    var c := PythonCodec(h);
    forall v: Payload ensures Rereadable(c, v) {
      if Dumps(v).Some? {
        StagedTextRedumps(v);
        PythonRewrites(h, Dumps(v).value);
      }
    }
  }
}
