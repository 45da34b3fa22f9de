/**
 * The `users` collection behind `mongoose.model('User', UserSchema)`: its
 * documents in natural order, and `save()` for new and existing documents, which
 * runs the schema's validators and is refused by the unique indexes on `_id`,
 * `username` and `email`.
 */
module UserStore {
  import opened UserModel

  /** No document other than the one at position `i` shares a unique key with `u`. */
  predicate NoClash(docs: seq<User>, i: int, u: User)
  {
    forall j :: 0 <= j < |docs| && j != i ==> KeysDiffer(docs[j], u)
  }

  /** Rewriting a document without touching its keys never clashes. */
  lemma SameKeysNoClash(docs: seq<User>, i: nat, u: User)
    requires UniqueKeys(docs) && i < |docs|
    requires u.id == docs[i].id && u.username == docs[i].username && u.email == docs[i].email
    ensures NoClash(docs, i, u)
  {
    forall j | 0 <= j < |docs| && j != i ensures KeysDiffer(docs[j], u) {
      if j < i { assert KeysDiffer(docs[j], docs[i]); } else { assert KeysDiffer(docs[i], docs[j]); }
    }
  }

  class Users {
    var docs: seq<User>

    /** Every stored document passed validation and no two share a unique key. */
    ghost predicate Valid()
      reads this
    {
      UniqueKeys(docs) && forall j :: 0 <= j < |docs| ==> SchemaValid(docs[j])
    }

    constructor ()
      ensures Valid() && docs == []
    {
      docs := [];
    }

    /** `save()` of the document at position `i`, now holding `u`. */
    method Save(i: nat, u: User) returns (ok: bool)
      requires Valid() && i < |docs|
      modifies this
      ensures Valid()
      ensures ok == (SchemaValid(u) && NoClash(old(docs), i, u))
      ensures docs == if ok then old(docs)[i := u] else old(docs)
    {
      ok := SchemaValid(u) && NoClash(docs, i, u);
      if ok {
        docs := docs[i := u];
      }
    }

    /** `save()` of a new document, which goes to the end of the natural order. */
    method Insert(u: User) returns (ok: bool)
      requires Valid()
      modifies this
      ensures Valid()
      ensures ok == (SchemaValid(u) && NoClash(old(docs), -1, u))
      ensures docs == if ok then old(docs) + [u] else old(docs)
    {
      ok := SchemaValid(u) && NoClash(docs, -1, u);
      if ok {
        docs := docs + [u];
      }
    }
  }
}
