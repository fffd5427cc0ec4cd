/** How the server describes a user to the feature-flag service: an anonymous
    visitor by its text alone, a signed-in user by e-mail, with the e-mail of
    whoever created the user's active organization as a custom attribute. */
module FeatureFlags {
  import opened Common

  /** A Python value of the shapes the description uses. */
  datatype PyVal = PyStr(s: string) | PyNone | PyDict(entries: map<string, PyVal>)

  datatype Organization = Organization(creatorEmail: string)

  /** A user: `text` is `str(user)`. */
  datatype User = User(isAnonymous: bool, text: string, email: string, activeOrganization: Option<Organization>)

  /** `get_user_repr(user)` */
  method GetUserRepr(user: User) returns (userData: map<string, PyVal>)
    ensures user.isAnonymous ==>
      userData == map["key" := PyStr(user.text), "custom" := PyDict(map["organization" := PyNone])]
    ensures !user.isAnonymous ==> userData.Keys == {"email", "key", "custom"}
    ensures !user.isAnonymous ==> userData["email"] == PyStr(user.email) && userData["key"] == userData["email"]
    ensures !user.isAnonymous && user.activeOrganization.Some? ==>
      userData["custom"] == PyDict(map["organization" := PyStr(user.activeOrganization.value.creatorEmail)])
    ensures !user.isAnonymous && user.activeOrganization.None? ==>
      userData["custom"] == PyDict(map["organization" := PyNone])
  {
    if user.isAnonymous {
      return map["key" := PyStr(user.text), "custom" := PyDict(map["organization" := PyNone])];
    }
    userData := map["email" := PyStr(user.email)];
    userData := userData["key" := userData["email"]];
    if user.activeOrganization.Some? {
      userData := userData["custom" := PyDict(map["organization" := PyStr(user.activeOrganization.value.creatorEmail)])];
    } else {
      userData := userData["custom" := PyDict(map["organization" := PyNone])];
    }
  }
}
