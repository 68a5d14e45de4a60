/**
 * The object-key scheme that emulates a folder tree in the flat bucket:
 * every object of a user lives under `userimages/{uid}/`, in one of the
 * kinds `profileimage`, `clothes` or `outfit`, and a clothing item's
 * category is read back from its key.
 */
module Keys {
  import opened Text

  const Root := "userimages/"

  /** `userimages/{uid}/`, the prefix the account deletion removes. */
  function UserFolder(uid: string): (p: string)
    ensures Root <= p && p[|p| - 1] == '/'
  {
    Root + uid + "/"
  }

  /** `userimages/{uid}/profileimage`, without a trailing slash: the prefix the profile upload deletes. */
  function ProfilePrefix(uid: string): (p: string)
    ensures UserFolder(uid) <= p
  {
    UserFolder(uid) + "profileimage"
  }

  /** `userimages/{uid}/profileimage/`, the folder the profile lookup lists. */
  function ProfileFolder(uid: string): (p: string)
    ensures ProfilePrefix(uid) <= p
  {
    ProfilePrefix(uid) + "/"
  }

  /** `userimages/{uid}/profileimage/profileImage_{t}`. */
  function ProfileKey(uid: string, t: string): (k: string)
    ensures ProfileFolder(uid) <= k && ProfilePrefix(uid) <= k && UserFolder(uid) <= k
  {
    ProfileFolder(uid) + "profileImage_" + t
  }

  /** `userimages/{uid}/clothes`, without a trailing slash: the prefix both clothes listings use. */
  function ClothesPrefix(uid: string): (p: string)
    ensures UserFolder(uid) <= p
  {
    UserFolder(uid) + "clothes"
  }

  /** `userimages/{uid}/clothes/{category}_{t}`. */
  function ClothesKey(uid: string, category: string, t: string): (k: string)
    ensures ClothesPrefix(uid) <= k && UserFolder(uid) <= k
  {
    ClothesPrefix(uid) + "/" + category + "_" + t
  }

  /** `userimages/{uid}/outfit/`, the folder the outfit count and listing use. */
  function OutfitFolder(uid: string): (p: string)
    ensures UserFolder(uid) <= p && p[|p| - 1] == '/'
  {
    UserFolder(uid) + "outfit/"
  }

  /** `userimages/{uid}/outfit/{n}_myoutfit_{t}`. */
  function OutfitKey(uid: string, n: nat, t: string): (k: string)
    ensures OutfitFolder(uid) <= k && UserFolder(uid) <= k
  {
    OutfitFolder(uid) + Decimal(n) + "_myoutfit_" + t
  }

  /** The category of a key: the part of its basename before the first underscore. */
  function ParseCategory(name: string): (category: string)
    ensures '_' !in category && '/' !in category
  {
    FirstField(LastField(name, '/'), '_')
  }

  /** The category parse of a clothes key reads only the basename `{category}_{t}`. */
  lemma ParseClothesKey(uid: string, category: string, t: string)
    requires '/' !in category && '/' !in t
    ensures ParseCategory(ClothesKey(uid, category, t)) == FirstField(category + "_" + t, '_')
  {
    var base := category + "_" + t;
    assert ClothesKey(uid, category, t) == ClothesPrefix(uid) + ['/'] + base;
    LastFieldOfJoin(ClothesPrefix(uid), '/', base);
  }

  /** The category written into a clothes key is read back, when it has no `_` or `/`. */
  lemma ParseCategoryRoundTrip(uid: string, category: string, t: string)
    requires '_' !in category && '/' !in category && '/' !in t
    ensures ParseCategory(ClothesKey(uid, category, t)) == category
  {
    ParseClothesKey(uid, category, t);
    assert category + "_" + t == category + ['_'] + t;
    FirstFieldOfJoin(category, '_', t);
  }

  /** A category containing `_` is read back as a strict prefix of itself, so never as itself. */
  lemma ParseCategoryTruncates(uid: string, category: string, t: string)
    requires '_' in category && '/' !in category && '/' !in t
    ensures ParseCategory(ClothesKey(uid, category, t)) < category
  {
    ParseClothesKey(uid, category, t);
    assert category + "_" + t == category + ['_'] + t;
    FirstFieldOfJoinTruncates(category, '_', t);
  }

  /** Two outfit keys of one user with different numbers are different keys. */
  lemma OutfitKeyInjective(uid: string, n: nat, m: nat, t: string, t': string)
    ensures OutfitKey(uid, n, t) == OutfitKey(uid, m, t') ==> n == m
  {
    var p := OutfitFolder(uid);
    var a := Decimal(n) + ['_'] + ("myoutfit_" + t);
    var b := Decimal(m) + ['_'] + ("myoutfit_" + t');
    assert OutfitKey(uid, n, t) == p + a;
    assert OutfitKey(uid, m, t') == p + b;
    assert a == OutfitKey(uid, n, t)[|p|..];
    assert b == OutfitKey(uid, m, t')[|p|..];
    assert '_' !in Decimal(n) by { assert IsDigits(Decimal(n)); }
    assert '_' !in Decimal(m) by { assert IsDigits(Decimal(m)); }
    FirstFieldOfJoin(Decimal(n), '_', "myoutfit_" + t);
    FirstFieldOfJoin(Decimal(m), '_', "myoutfit_" + t');
    DecimalInjective(n, m);
  }

  /** Clothes and outfit keys of a user lie outside the prefix the profile upload deletes. */
  lemma KindsDisjoint(uid: string, category: string, n: nat, t: string, t': string)
    ensures !(ProfilePrefix(uid) <= ClothesKey(uid, category, t))
    ensures !(ProfilePrefix(uid) <= OutfitKey(uid, n, t'))
    ensures !(ClothesPrefix(uid) <= ProfileKey(uid, t)) && !(ClothesPrefix(uid) <= OutfitKey(uid, n, t'))
    ensures !(OutfitFolder(uid) <= ProfileKey(uid, t)) && !(OutfitFolder(uid) <= ClothesKey(uid, category, t))
  {
    var i := |UserFolder(uid)|;
    assert ProfilePrefix(uid)[i] == 'p';
    assert ClothesPrefix(uid)[i] == ClothesKey(uid, category, t)[i] == 'c';
    assert OutfitFolder(uid)[i] == OutfitKey(uid, n, t')[i] == 'o';
    assert ProfileKey(uid, t)[i] == 'p';
  }

  /**
   * The folders of two different users whose ids contain no `/` are disjoint:
   * no key under one user's folder starts with the other's.
   */
  lemma UserFoldersDisjoint(uid: string, other: string, rest: string)
    requires '/' !in uid && '/' !in other && uid != other
    ensures !(UserFolder(uid) <= UserFolder(other) + rest)
  {
    var r := |Root|;
    var mine, k := UserFolder(uid), UserFolder(other) + rest;
    if |uid| < |other| {
      assert mine[r + |uid|] == '/' != other[|uid|] == k[r + |uid|];
    } else if |other| < |uid| {
      assert mine[r + |other|] == uid[|other|] != '/' == k[r + |other|];
    } else {
      var i :| 0 <= i < |uid| && uid[i] != other[i];
      assert mine[r + i] == uid[i] != other[i] == k[r + i];
    }
  }
}
