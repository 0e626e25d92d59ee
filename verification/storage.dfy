/**
 * What the storefront keeps in the browser's localStorage: the signed-in user
 * under `user`, the bearer token under `token`, and the remembered login under
 * `rememberedLogin`. Reading a JSON slot may find nothing, find text that
 * `JSON.parse` rejects, or find a value.
 */
module Storage {
  import opened Common

  /** One JSON-valued storage key as read back by `JSON.parse(localStorage.getItem(key))`. */
  datatype Slot<T> = Absent | Corrupt | Present(value: T)

  /** `user.role`, of which the storefront only reads the code. */
  datatype Role = Role(code: Option<string>)

  /** The user record the backend returns and the storefront persists. */
  datatype User = User(
    id: Option<int>,
    firstname: string,
    lastname: string,
    email: string,
    phone: string,
    image: Option<string>,
    role: Option<Role>)

  /** The remembered login of the login page. */
  datatype Credentials = Credentials(email: string, password: string)

  /** The three keys the storefront reads and writes. */
  datatype Store = Store(user: Slot<User>, token: Option<string>, remembered: Slot<Credentials>)

  /** `user.role?.code?.toLowerCase() === 'admin'`. */
  predicate IsAdmin(u: User) {
    u.role.Some? && u.role.value.code.Some? && Lower(u.role.value.code.value) == "admin"
  }

  /** The role test ignores the case of the role code. */
  lemma IsAdminIgnoresCase(u: User)
    requires u.role == Some(Role(Some("ADMIN")))
    ensures IsAdmin(u)
  {
    assert Lower("ADMIN") == "admin" by {
      assert Lower("ADMIN") == [LowerChar('A')] + Lower("DMIN");
    }
  }

  /** Removes both `user` and `token`; the remembered login stays. */
  function ClearSession(s: Store): (r: Store)
    ensures r.user == Absent && r.token == None
    ensures r.remembered == s.remembered
  {
    s.(user := Absent, token := None)
  }
}
