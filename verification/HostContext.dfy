/**
  The host context capsule (host_context.py): a canonical JSON document of at most 16 KiB, in which only the learner's
  text may be cut. The digest of a document is a free constructor, so different documents have different digests.
  */
module HostContext {
  import opened Wrappers

  const MAX_HOST_CONTEXT_BYTES: nat := 16 * 1024

  const MAX_MODEL_ENTRIES: nat := 6

  const MAX_EVIDENCE_CLAIMS: nat := 3

  /** The digest of a text, written as "sha256:" and 64 digits. */
  datatype TextDigest = TextDigest(text: string)

  datatype Turn = Turn(text: string, readRef: Option<string>, truncated: bool, original: Option<TextDigest>)

  /** `fixed` is the encoded size of all fields but the learner turn, the learner model and the evidence. */
  datatype Source = Source(fixed: nat, model: seq<string>, evidence: seq<string>, turn: Option<Turn>)

  datatype Body = Body(fixed: nat, model: seq<string>, evidence: seq<string>, turn: Option<Turn>)

  datatype Capsule = Capsule(body: Body, digest: Body)

  datatype Error = SourceInvalid | TooLarge | ReadRefRequired | Invalid

  // ---- encoded sizes ----

  /** Bytes of one character inside a JSON string (section 7 of RFC 8259), encoded as UTF-8. */
  function CharSize(c: char): (size: nat)
    ensures 1 <= size <= 6
  {
    var code := c as int;
    if c == '\"' || c == '\\' then 2
    else if code == 8 || code == 9 || code == 10 || code == 12 || code == 13 then 2
    else if code < 0x20 then 6
    else if code < 0x80 then 1
    else if code < 0x800 then 2
    else if code < 0x10000 then 3
    else 4
  }

  function CharsSize(text: string): nat {
    if text == "" then 0 else CharsSize(text[..|text| - 1]) + CharSize(text[|text| - 1])
  }

  function StringSize(text: string): nat {
    2 + CharsSize(text)
  }

  const NULL_SIZE: nat := 4

  const DIGEST_SIZE: nat := 73

  /** The braces, commas and quoted names with colons around the four values of a turn. */
  const TURN_KEYS_SIZE: nat := 53

  /** An object of the four fields original_sha256, read_ref, text and truncated, or null. */
  function TurnSize(turn: Option<Turn>): nat {
    if turn.None? then NULL_SIZE
    else
      var value := turn.value;
      TURN_KEYS_SIZE
      + (if value.original.Some? then DIGEST_SIZE else NULL_SIZE)
      + (if value.readRef.Some? then StringSize(value.readRef.value) else NULL_SIZE)
      + StringSize(value.text)
      + (if value.truncated then 4 else 5)
  }

  function ListSize(items: seq<string>): nat {
    if items == [] then 2 else ListSize(items[..|items| - 1]) + |items[|items| - 1]| + (if |items| > 1 then 1 else 0)
  }

  function EncodedSize(capsule: Capsule): nat {
    var body := capsule.body;
    body.fixed + ListSize(body.model) + ListSize(body.evidence) + TurnSize(body.turn)
  }

  // ---- building ----

  function Take(items: seq<string>, count: nat): seq<string> {
    if |items| <= count then items else items[..count]
  }

  function WithDigest(source: Source, turn: Option<Turn>): Capsule {
    var body := Body(source.fixed, Take(source.model, MAX_MODEL_ENTRIES), Take(source.evidence, MAX_EVIDENCE_CLAIMS), turn);
    Capsule(body, body)
  }

  predicate Fits(capsule: Capsule) {
    EncodedSize(capsule) <= MAX_HOST_CONTEXT_BYTES
  }

  /** A source offers the learner's whole text: nothing cut, no digest of an original. */
  predicate SourceValid(source: Source) {
    && source.evidence != []
    && (source.turn.Some? ==> !source.turn.value.truncated && source.turn.value.original.None?)
  }

  function Cut(turn: Turn, length: nat): Turn
    requires length <= |turn.text|
  {
    Turn(turn.text[..length], turn.readRef, true, Some(TextDigest(turn.text)))
  }

  /** The prefix of this length can be sent, and no longer one can. */
  ghost predicate LongestFitting(source: Source, turn: Turn, length: nat) {
    && length <= |turn.text| && Fits(WithDigest(source, Some(Cut(turn, length))))
    && (forall longer :: length < longer <= |turn.text| ==> !Fits(WithDigest(source, Some(Cut(turn, longer)))))
  }

  lemma {:induction false} LongerIsLarger(text: string, short: nat, long: nat)
    requires short <= long <= |text|
    ensures CharsSize(text[..short]) + (long - short) <= CharsSize(text[..long])
  {
    if short < long {
      LongerIsLarger(text, short, long - 1);
      assert text[..long][..long - 1] == text[..long - 1];
    }
  }

  /** Cutting later only makes the capsule larger. */
  lemma FitsShrinks(source: Source, turn: Turn, short: nat, long: nat)
    requires short <= long <= |turn.text| && Fits(WithDigest(source, Some(Cut(turn, long))))
    ensures Fits(WithDigest(source, Some(Cut(turn, short))))
  {
    LongerIsLarger(turn.text, short, long);
  }

  /** Marking the whole text as cut costs more than sending it whole, so a cut text is always a strict prefix. */
  lemma WholeDoesNotFitCut(source: Source, turn: Turn)
    requires !turn.truncated && turn.original.None?
    requires !Fits(WithDigest(source, Some(turn)))
    ensures !Fits(WithDigest(source, Some(Cut(turn, |turn.text|))))
  {
    assert turn.text[..|turn.text|] == turn.text;
  }

  /**
    A capsule that fits as it is is built as it is. Otherwise the learner's text is cut to the longest prefix that
    fits, always a strict one; building fails only without a text, without a read path, or when no prefix fits.
    */
  method Build(source: Source) returns (result: Result<Capsule, Error>)
    ensures result == Err(SourceInvalid) <==> !SourceValid(source)
    ensures SourceValid(source) && Fits(WithDigest(source, source.turn)) ==> result == Ok(WithDigest(source, source.turn))
    ensures SourceValid(source) && !Fits(WithDigest(source, source.turn)) ==>
              && (source.turn.None? || source.turn.value.text == "" ==> result == Err(TooLarge))
              && (source.turn.Some? && source.turn.value.text != "" && source.turn.value.readRef.None? ==>
                    result == Err(ReadRefRequired))
              && (source.turn.Some? && source.turn.value.text != "" && source.turn.value.readRef.Some? ==>
                    var turn := source.turn.value;
                    if Fits(WithDigest(source, Some(Cut(turn, 0)))) then
                      exists length: nat ::
                        LongestFitting(source, turn, length) && length < |turn.text|
                        && result == Ok(WithDigest(source, Some(Cut(turn, length))))
                    else
                      result == Err(TooLarge))
  {
    hide Fits, WithDigest;
    if !SourceValid(source) {
      return Err(SourceInvalid);
    }
    var capsule := WithDigest(source, source.turn);
    if Fits(capsule) {
      return Ok(capsule);
    }
    if source.turn.None? || source.turn.value.text == "" {
      return Err(TooLarge);
    }
    var turn := source.turn.value;
    if turn.readRef.None? {
      return Err(ReadRefRequired);
    }
    WholeDoesNotFitCut(source, turn);
    var low, high := 0, |turn.text|;
    var fitted: Option<Capsule> := None;
    while low <= high
      invariant 0 <= low <= |turn.text| && -1 <= high <= |turn.text| && low <= high + 1
      invariant forall length :: high < length <= |turn.text| ==> !Fits(WithDigest(source, Some(Cut(turn, length))))
      invariant if low == 0 then fitted.None?
                else fitted == Some(WithDigest(source, Some(Cut(turn, low - 1)))) && Fits(fitted.value)
      decreases high - low
    {
      var midpoint := (low + high) / 2;
      var candidate := WithDigest(source, Some(Cut(turn, midpoint)));
      if Fits(candidate) {
        fitted := Some(candidate);
        low := midpoint + 1;
      } else {
        forall length | midpoint <= length <= |turn.text|
          ensures !Fits(WithDigest(source, Some(Cut(turn, length))))
        {
          if Fits(WithDigest(source, Some(Cut(turn, length)))) {
            FitsShrinks(source, turn, midpoint, length);
          }
        }
        high := midpoint - 1;
      }
    }
    if fitted.None? {
      return Err(TooLarge);
    }
    FitsShrinks(source, turn, 0, low - 1);
    assert LongestFitting(source, turn, low - 1);
    result := Ok(fitted.value);
  }

  // ---- encoding ----

  /** What the encoder revalidates of a capsule before it measures it. */
  predicate CapsuleValid(capsule: Capsule) {
    && |capsule.body.model| <= MAX_MODEL_ENTRIES && 0 < |capsule.body.evidence| <= MAX_EVIDENCE_CLAIMS
    && (capsule.body.turn.Some? ==>
          if capsule.body.turn.value.truncated
          then capsule.body.turn.value.readRef.Some? && capsule.body.turn.value.original.Some?
          else capsule.body.turn.value.original.None?)
    && capsule.digest == capsule.body
  }

  /** The answer is the size of the encoded document. */
  function Encode(capsule: Capsule): Result<nat, Error> {
    if !CapsuleValid(capsule) then Err(Invalid)
    else if !Fits(capsule) then Err(TooLarge)
    else Ok(EncodedSize(capsule))
  }

  /**
    What a built capsule holds: the first six entries of the model, the first three claims, and of the learner's text all
    of it or a strict prefix together with the digest of the whole and the path to it.
    */
  ghost predicate Holds(source: Source, body: Body) {
    && body.model <= source.model && |body.model| == (if |source.model| < 6 then |source.model| else 6)
    && body.evidence <= source.evidence && |body.evidence| == (if |source.evidence| < 3 then |source.evidence| else 3)
    && (body.turn == source.turn
        || (source.turn.Some? && body.turn.Some? && source.turn.value.readRef.Some?
            && body.turn.value.text < source.turn.value.text && body.turn.value.truncated
            && body.turn.value.readRef == source.turn.value.readRef
            && body.turn.value.original == Some(TextDigest(source.turn.value.text))))
  }

  /** Every capsule that is built is accepted by the encoder, and loses nothing but the end of the learner's text. */
  method BuildAndEncode(source: Source) returns (built: Result<Capsule, Error>, encoded: Result<nat, Error>)
    ensures built.Ok? ==> encoded.Ok? && encoded.value <= 16384 && Holds(source, built.value.body)
    ensures built.Err? ==> encoded == Err(built.error)
  {
    built := Build(source);
    if built.Err? {
      return built, Err(built.error);
    }
    BuiltIsValid(source, built.value);
    encoded := Encode(built.value);
  }

  lemma BuiltIsValid(source: Source, capsule: Capsule)
    requires SourceValid(source)
    requires || capsule == WithDigest(source, source.turn)
             || (source.turn.Some? && source.turn.value.readRef.Some?
                 && exists length: nat :: length <= |source.turn.value.text|
                                          && capsule == WithDigest(source, Some(Cut(source.turn.value, length))))
    ensures CapsuleValid(capsule)
  {
  }
}
