/** `getProfilePicUrl` (utils/getters.ts). */
module Getters {
  import opened JsString

  /** An optional, nullable string argument. */
  datatype Nullish = Undefined | Null | Text(value: string)

  /** How a template literal shows the argument. */
  function Shown(v: Nullish): string {
    match v
    case Undefined => "undefined"
    case Null => "null"
    case Text(s) => s
  }

  const ProfilePrefix: string := "/api/blob/"
  const ProfileSuffix: string := "/serveProfile"

  /** An avatar that is an `https` URL is used as it is; anything else is
      replaced by the user's stored profile picture. */
  function ProfilePicUrl(avatar: Nullish, userId: Nullish): (r: string)
    ensures avatar.Text? && StartsWith(avatar.value, "https") ==> r == avatar.value
    ensures !(avatar.Text? && StartsWith(avatar.value, "https")) ==>
      StartsWith(r, ProfilePrefix) && |r| >= |ProfilePrefix| + |ProfileSuffix|
      && r[|ProfilePrefix|..|r| - |ProfileSuffix|] == Shown(userId)
      && r[|r| - |ProfileSuffix|..] == ProfileSuffix
  {
    if avatar.Text? && StartsWith(avatar.value, "https") then avatar.value
    else
      var r := ProfilePrefix + Shown(userId) + ProfileSuffix;
      assert r[..|ProfilePrefix|] == ProfilePrefix;
      assert r[|ProfilePrefix|..|r| - |ProfileSuffix|] == Shown(userId);
      assert r[|r| - |ProfileSuffix|..] == ProfileSuffix;
      r
  }

  /** The answer is always an `https` URL or a profile-picture route. */
  lemma UrlIsSecureOrServed(avatar: Nullish, userId: Nullish)
    ensures StartsWith(ProfilePicUrl(avatar, userId), "https") || StartsWith(ProfilePicUrl(avatar, userId), ProfilePrefix)
  {
  }

  /** Different users get different routes. */
  lemma ServedRouteNamesUser(a: string, b: string)
    requires a != b
    ensures ProfilePicUrl(Null, Text(a)) != ProfilePicUrl(Null, Text(b))
  {
  }

  /** An `https` avatar makes `userId` irrelevant, and the fallback route does
      not depend on which avatar was refused. */
  lemma UrlIgnoresUnusedArgument(avatar: Nullish, other: Nullish, userId: Nullish, otherUser: Nullish)
    ensures avatar.Text? && StartsWith(avatar.value, "https") ==>
      ProfilePicUrl(avatar, userId) == ProfilePicUrl(avatar, otherUser)
    ensures !(avatar.Text? && StartsWith(avatar.value, "https")) && !(other.Text? && StartsWith(other.value, "https")) ==>
      ProfilePicUrl(avatar, userId) == ProfilePicUrl(other, userId)
  {
  }
}
