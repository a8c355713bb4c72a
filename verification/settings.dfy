/**
 * Connection settings derived in the constructors of the receiver and of
 * the client base: the timeout defaulting and the optional credentials.
 */
module Settings {
  import opened Wrappers
  import opened JavaText

  /** A Java `int`. */
  newtype int32 = x: int | -0x8000_0000 <= x < 0x8000_0000

  /** The value used in place of a non-positive timeout or interval, in milliseconds. */
  const DefaultMillis: int32 := 5000

  /** `t > 0 ? t : 5000`: the connection timeout of both constructors and the
      network recovery interval of the client base. */
  function EffectiveMillis(t: int32): (r: int32)
    ensures r > 0
    ensures t > 0 ==> r == t
    ensures t <= 0 ==> r == DefaultMillis
  {
    if t > 0 then t else DefaultMillis
  }

  /** The values left as they are are exactly the positive ones, so applying
      the default a second time changes nothing. */
  lemma EffectiveMillisIdempotent(t: int32)
    ensures EffectiveMillis(t) == t <==> t > 0
    ensures EffectiveMillis(EffectiveMillis(t)) == EffectiveMillis(t)
  {
  }

  /** A user name or password is passed to the connection factory only when
      it is not blank; otherwise the factory keeps its own default. */
  function Credential(s: string): (r: Option<string>)
    ensures r.Some? <==> exists i :: 0 <= i < |s| && !IsWhitespace(s[i])
    ensures r.Some? ==> r.value == s
  {
    if IsBlank(s) then None else Some(s)
  }
}
