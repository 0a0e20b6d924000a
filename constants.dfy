/** The literal values of the chat app: collection names, document field names,
    frame tags, error codes, upload path pieces and HTTP status codes. */
module Constants {

  const CHATS_COLLECTION := "chats"
  const MESSAGES_COLLECTION := "messages"

  const FASTAPI_CHAT_ENDPOINT := "http://localhost:8000/ai/chat"

  const CHAT_STATUS_DRAFT := "draft"

  // document fields
  const FIELD_CHAT_ID := "chat_id"
  const FIELD_USER := "user"
  const FIELD_TITLE := "title"
  const FIELD_STATUS := "status"
  const FIELD_CREATED_AT := "created_at"
  const FIELD_UPDATED_AT := "updated_at"
  const FIELD_ROLE := "role"
  const FIELD_CONTENT := "content"
  const FIELD_ID := "_id"
  const FIELD_RESPONSE := "response"
  const FIELD_RESPONSE_FILE_URL := "response_file_url"
  const FIELD_FILE := "file"
  const FIELD_DATA := "data"
  const FIELD_FILENAME := "filename"

  // gateway payload fields; the last two are imported by the client module but
  // never defined in the constants module, their values are the evident ones
  const FIELD_MESSAGE := "message"
  const FIELD_CHAT_HISTORY := "chat_history"
  const FIELD_SESSION_ID := "session_id"
  const FIELD_REFRESH_INDEX := "refresh_index"

  // frame tags
  const RESPONSE_TYPE_CHAT_CREATED := "chat.created"
  const RESPONSE_OK := "ok"
  const RESPONSE_ERRORS := "errors"

  // sentinel error codes
  const ERROR_INVALID_JSON := "invalid_json"
  const ERROR_INVALID_PAYLOAD := "invalid_payload"
  const ERROR_CHAT_INIT_FAILED := "chat_init_failed"
  const ERROR_MESSAGE_INSERT_FAILED := "message_insert_failed"

  // upload path pieces
  const FILE_PATH_PREFIX := "chat"
  const FILE_PATH_MESSAGES := "messages"
  const FILE_PATH_RESPONSE_PREFIX := "response_"
  const DEFAULT_FILENAME := "response.pdf"

  const HTTP_OK := 200
  const HTTP_ERROR := 500
}
