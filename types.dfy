/**
 * The records the backend sends: conversations and messages. Only the
 * fields that the modelled components read are kept. Status and sender
 * class are kept as the strings they are on the wire ("open", "pending",
 * "closed"; "guest", "staff", "system"), because the components compare
 * and index by them as strings.
 */
module Types {
  import opened Wrappers

  type Uuid = string

  /** No element occurs twice. */
  predicate Distinct<T(==)>(s: seq<T>) {
    forall i, j :: 0 <= i < j < |s| ==> s[i] != s[j]
  }

  /** `a` is `b` with some elements left out, the rest in order. */
  predicate IsSubsequence<T(==)>(a: seq<T>, b: seq<T>)
    decreases |b|
  {
    || a == []
    || (b != [] && ((a[0] == b[0] && IsSubsequence(a[1..], b[1..])) || IsSubsequence(a, b[1..])))
  }

  lemma {:induction false} SubsequenceOfItself<T>(a: seq<T>)
    ensures IsSubsequence(a, a)
  {
    if a != [] {
      SubsequenceOfItself(a[1..]);
    }
  }

  datatype Department = Department(id: Uuid, name: string, slug: string)

  datatype Conversation = Conversation(
    id: Uuid,
    hotel: Uuid,
    status: string,
    department: Option<Department>,
    roomNumber: Option<string>,
    guestLanguage: Option<string>,
    subject: Option<string>,
    createdAt: string,
    lastMessageAt: string)

  datatype Message = Message(
    id: Uuid,
    conversation: Uuid,
    hotel: Uuid,
    senderType: string,
    text: string,
    sourceLang: string,
    translatedText: Option<string>,
    targetLang: Option<string>,
    createdAt: string)
}
