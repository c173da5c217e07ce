/** The parts of the authentication and database services the screens read or write, as values:
    the signed-in account and a record written to a database node. */
module Backend {
  import opened Wrappers

  /** A signed-in account: its uid, and the email and display name it may lack. */
  datatype Account = Account(uid: string, email: Option<string>, displayName: Option<string>)

  /** A HashMap<String, Object> of string values as passed to setValue; a None value is a key
      put with a null value. */
  type Record = map<string, Option<string>>

  /** A setValue call: the record and the node it is written to, as the path of child names from
      the database root. */
  datatype Write = Write(path: seq<string>, record: Record)

  /** The keys of a user profile record. */
  const USER_KEYS: set<string> := {"username", "email", "age", "phoneNumber"}

  /** w writes a user profile with the given values to the node Users/uid. */
  predicate IsUserWrite(w: Write, uid: string, username: Option<string>, email: Option<string>,
                        age: Option<string>, phoneNumber: Option<string>)
  {
    && w.path == ["Users", uid]
    && w.record.Keys == USER_KEYS
    && w.record["username"] == username && w.record["email"] == email
    && w.record["age"] == age && w.record["phoneNumber"] == phoneNumber
  }

  /** Builds a user profile record by four successive puts, in the order both the sign-up and the
      sign-in screens use. */
  method PutUserDetails(username: Option<string>, email: Option<string>, age: Option<string>,
                        phoneNumber: Option<string>) returns (m: Record)
    ensures m.Keys == USER_KEYS
    ensures m["username"] == username && m["email"] == email
    ensures m["age"] == age && m["phoneNumber"] == phoneNumber
  {
    m := map[];
    m := m["username" := username];
    m := m["email" := email];
    m := m["age" := age];
    m := m["phoneNumber" := phoneNumber];
  }
}
