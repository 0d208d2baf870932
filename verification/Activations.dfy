/** The hash id of an activation (`hashID` of src/activation_claims.cpp). */
module Activations {
  import opened Results
  import opened Tokenization
  import opened Tokens
  import Subjects
  import Sha2Variants
  import Sha2
  import Base32

  /** The base text: subjects that differ only from their first wildcard token on have the same. */
  function BaseText(issuer: string, subject: string, importSubject: string): string {
    issuer + "." + subject + "." + Subjects.Cleaned(importSubject)
  }

  /** `hashID`. */
  method HashID(issuer: string, subject: string, importSubject: string) returns (r: Result<string>)
    ensures r.Err? <==> issuer == "" || subject == "" || importSubject == ""
    ensures r.Err? ==> r.error == InvalidClaims
    ensures r.Ok? ==>
      && Sha2.WellFormed(Sha2Variants.SHA256)
      && Base32.IsPadded(
           Base32.Spelled(Sha2.DigestOf(Sha2Variants.SHA256, TextBytes(BaseText(issuer, subject, importSubject)))),
           r.value)
      && |r.value| == 56
  {
    if issuer == "" || subject == "" || importSubject == "" {
      return Err(InvalidClaims);
    }
    var cleaned := Subjects.CleanSubject(importSubject);
    var id := Sha2Variants.HashId(TextBytes(issuer + "." + subject + "." + cleaned));
    return Ok(id);
  }

  /** Cleaning the subject beforehand makes no difference. */
  lemma CleanedBefore(issuer: string, subject: string, importSubject: string)
    ensures BaseText(issuer, subject, Subjects.Cleaned(importSubject)) == BaseText(issuer, subject, importSubject)
  {
    Subjects.CleanedTwice(importSubject);
  }

  /** The tokens of the base text: those of the issuer, of the subject, and the kept ones of the import
      subject. */
  lemma BaseTextTokens(issuer: string, subject: string, importSubject: string, tokens: seq<string>, i: nat)
    requires tokens == Split(importSubject, '.') && i <= |tokens|
    requires forall k :: 0 <= k < i ==> tokens[k] != "*" && tokens[k] != ">"
    requires i < |tokens| ==> tokens[i] == "*" || tokens[i] == ">"
    ensures Split(BaseText(issuer, subject, importSubject), '.')
         == Split(issuer, '.') + Split(subject, '.') + if i == 0 then ["_"] else tokens[..i]
  {
    Subjects.CleanedExactly(importSubject, tokens, i);
    SplitThreeTexts(issuer, subject, Subjects.Cleaned(importSubject), '.');
  }
}
