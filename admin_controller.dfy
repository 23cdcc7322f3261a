/** Admin registration and login. At most one admin may ever be registered:
    registration is refused with 403 once the admin collection holds a
    document. Login answers an unknown e-mail and a wrong password alike. */
module AdminController {
  import opened Wrappers
  import opened Seqs
  import opened Credentials
  import opened Store

  /** The fields `registerAdmin` reads from the request body; `Password` is
      None when the body carries none. */
  datatype AdminRegistration = AdminRegistration(Fullname: string, Email: string, Password: Option<string>)

  /** The admin as the responses show it: no password. */
  datatype AdminView = AdminView(id: string, Email: string, Fullname: string)

  datatype AdminReply =
    | AdminRejected(status: int, message: string)
    | AdminAccepted(status: int, message: string, token: Token, cookie: string, admin: AdminView)

  const OnlyOneAdmin := "Admin already exists. Only one admin is allowed. Please login with existing credentials."
  const ServerError := "Server error"

  predicate AdminHasEmail(a: Admin, email: string) { a.Email == email }

  /** `registerAdmin`. `freshId` is the id the database gives the new
      document and `salt` the salt bcrypt draws. A missing password makes
      `bcrypt.hash` throw, which the handler answers with 500. */
  method RegisterAdmin(admins: AdminStore, r: AdminRegistration, freshId: string, salt: string)
    returns (reply: AdminReply)
    requires admins.Valid()
    modifies admins
    ensures admins.Valid()
    ensures |old(admins.docs)| > 0 ==>
              reply == AdminRejected(403, OnlyOneAdmin) && admins.docs == old(admins.docs)
    ensures |old(admins.docs)| == 0 && r.Password.None? ==>
              reply == AdminRejected(500, ServerError) && admins.docs == []
    ensures |old(admins.docs)| == 0 && r.Password.Some? ==>
              admins.docs == [Admin(freshId, r.Fullname, r.Email, Hash(r.Password.value, salt))]
              && reply == AdminAccepted(201, "Admin registered successfully", Sign(freshId), "adminToken",
                                        AdminView(freshId, r.Email, r.Fullname))
  {
    if |admins.docs| > 0 {
      return AdminRejected(403, OnlyOneAdmin);
    }
    var existing := FirstIndex(admins.docs, a => AdminHasEmail(a, r.Email));
    if existing.Some? {
      return AdminRejected(400, "Admin already exists, Please login");
    }
    if r.Password.None? {
      return AdminRejected(500, ServerError);
    }
    var created := Admin(freshId, r.Fullname, r.Email, Hash(r.Password.value, salt));
    admins.docs := admins.docs + [created];
    reply := AdminAccepted(201, "Admin registered successfully", Sign(created.id), "adminToken",
                           AdminView(created.id, r.Email, r.Fullname));
  }

  const LoginFailure := "Invalid Email or Password"

  /** `loginAdmin`; `password` is None when the body has none, which makes
      `bcrypt.compare` throw and the handler answer 500. */
  method LoginAdmin(admins: AdminStore, email: string, password: Option<string>)
    returns (reply: AdminReply)
    requires admins.Valid()
    ensures reply.AdminAccepted? <==>
              exists i :: 0 <= i < |admins.docs| && admins.docs[i].Email == email
                && password.Some? && Compare(password.value, admins.docs[i].Password)
    ensures reply.AdminAccepted? ==>
              reply.status == 200 && reply.cookie == "adminToken"
              && exists i :: 0 <= i < |admins.docs| && admins.docs[i].Email == email
                   && reply.token == Sign(admins.docs[i].id)
                   && reply.admin == AdminView(admins.docs[i].id, email, admins.docs[i].Fullname)
    ensures reply.AdminRejected? ==>
              reply == AdminRejected(400, LoginFailure) || (reply == AdminRejected(500, ServerError) && password.None?)
    ensures (forall i :: 0 <= i < |admins.docs| ==> admins.docs[i].Email != email) ==>
              reply == AdminRejected(400, LoginFailure)
    ensures password.Some? && !reply.AdminAccepted? ==>
              reply == AdminRejected(400, LoginFailure)
  {
    var found := FirstIndex(admins.docs, a => AdminHasEmail(a, email));
    if found.None? {
      return AdminRejected(400, LoginFailure);
    }
    var admin := admins.docs[found.value];
    if password.None? {
      return AdminRejected(500, ServerError);
    }
    if !Compare(password.value, admin.Password) {
      return AdminRejected(400, LoginFailure);
    }
    reply := AdminAccepted(200, "Admin logged in successfully", Sign(admin.id), "adminToken",
                           AdminView(admin.id, email, admin.Fullname));
  }

  /** The `checkAdminExists` response body. */
  datatype Existence = Existence(adminExists: bool, message: string)

  /** `checkAdminExists`. */
  method CheckAdminExists(admins: AdminStore) returns (r: Existence)
    ensures r.adminExists <==> |admins.docs| > 0
    ensures r.message == if r.adminExists then "Admin already exists" else "No admin found"
  {
    var count := |admins.docs|;
    r := Existence(count > 0, if count > 0 then "Admin already exists" else "No admin found");
  }
}
