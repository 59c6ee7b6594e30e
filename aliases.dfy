/**
 * The accepted column labels per canonical field, for notes, creators and
 * comments. Order matters twice: fields are resolved in table order, and
 * within a field the first alias present in the sheet wins.
 */
module Aliases {

  /** Canonical field name paired with its aliases, in declaration order. */
  type AliasTable = seq<(string, seq<string>)>

  const NoteAliases: AliasTable := [
    ("note_id", ["note_id", "笔记id", "笔记ID"]),
    ("note_url", ["note_url", "笔记链接"]),
    ("title", ["title", "笔记标题"]),
    ("desc", ["desc", "笔记内容"]),
    ("time", ["time", "发布时间"]),
    ("tag_list", ["tag_list", "话题", "笔记内容标签"]),
    ("source_keyword", ["source_keyword", "命中关键词"]),
    ("liked_count", ["liked_count", "点赞", "赞", "互动量"]),
    ("collected_count", ["collected_count", "收藏"]),
    ("comment_count", ["comment_count", "评论"]),
    ("share_count", ["share_count", "分享"]),
    ("user_id", ["user_id", "账号小红书号", "作者ID"]),
    ("nickname", ["nickname", "账号昵称"]),
    ("avatar", ["avatar", "头像", "账号头像"]),
    ("ip_location", ["ip_location", "发文属地", "IP属地"])
  ]

  const CreatorAliases: AliasTable := [
    ("user_id", ["user_id", "账号小红书号", "作者ID"]),
    ("nickname", ["nickname", "账号昵称"]),
    ("avatar", ["avatar", "头像", "账号头像"]),
    ("ip_location", ["ip_location", "IP属地", "常驻地"]),
    ("desc", ["desc", "账号简介", "作者简介"]),
    ("gender", ["gender", "性别"]),
    ("follows", ["follows", "关注数"]),
    ("fans", ["fans", "当前粉丝数", "粉丝数"]),
    ("interaction", ["interaction", "互动量"]),
    ("tag_list", ["tag_list", "账号标签"])
  ]

  const CommentAliases: AliasTable := [
    ("comment_id", ["comment_id", "评论id", "评论ID"]),
    ("note_id", ["note_id", "笔记id", "笔记ID"]),
    ("user_id", ["user_id", "账号小红书号", "作者ID"]),
    ("nickname", ["nickname", "账号昵称"]),
    ("avatar", ["avatar", "头像", "账号头像"]),
    ("ip_location", ["ip_location", "IP属地"]),
    ("content", ["content", "评论内容"]),
    ("create_time", ["create_time", "评论时间"]),
    ("sub_comment_count", ["sub_comment_count", "回复数"]),
    ("pictures", ["pictures", "图片"]),
    ("parent_comment_id", ["parent_comment_id", "父评论id"]),
    ("like_count", ["like_count", "点赞数", "赞"])
  ]

  /** A Python dict literal: no field is listed twice. */
  predicate DistinctFields(t: AliasTable) {
    forall i, j :: 0 <= i < j < |t| ==> t[i].0 != t[j].0
  }

  /** The field names of a table. */
  function FieldNames(t: AliasTable): (fs: set<string>)
    ensures forall i :: 0 <= i < |t| ==> t[i].0 in fs
    ensures forall f :: f in fs ==> exists i :: 0 <= i < |t| && t[i].0 == f
  {
    set i | 0 <= i < |t| :: t[i].0
  }
}

module AliasFacts {
  import opened Aliases

  /** The three tables are well formed: no field twice, no empty alias. */
  lemma TablesWellFormed()
    ensures DistinctFields(NoteAliases) && DistinctFields(CreatorAliases) && DistinctFields(CommentAliases)
    ensures forall k, i :: 0 <= k < |NoteAliases| && 0 <= i < |NoteAliases[k].1| ==> NoteAliases[k].1[i] != ""
    ensures forall k, i :: 0 <= k < |CreatorAliases| && 0 <= i < |CreatorAliases[k].1| ==> CreatorAliases[k].1[i] != ""
    ensures forall k, i :: 0 <= k < |CommentAliases| && 0 <= i < |CommentAliases[k].1| ==> CommentAliases[k].1[i] != ""
  {
    NoteTableWellFormed();
    CreatorTableWellFormed();
    CommentTableWellFormed();
  }

  lemma NoteTableWellFormed()
    ensures DistinctFields(NoteAliases)
    ensures forall k, i :: 0 <= k < |NoteAliases| && 0 <= i < |NoteAliases[k].1| ==> NoteAliases[k].1[i] != ""
  {
  }

  lemma CreatorTableWellFormed()
    ensures DistinctFields(CreatorAliases)
    ensures forall k, i :: 0 <= k < |CreatorAliases| && 0 <= i < |CreatorAliases[k].1| ==> CreatorAliases[k].1[i] != ""
  {
  }

  lemma CommentTableWellFormed()
    ensures DistinctFields(CommentAliases)
    ensures forall k, i :: 0 <= k < |CommentAliases| && 0 <= i < |CommentAliases[k].1| ==> CommentAliases[k].1[i] != ""
  {
  }
}
